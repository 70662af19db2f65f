/** The pool of waiting transactions (src/mempool.rs). The plain list of transactions is the
    specification; the object also keeps an id set, a (sender, nonce) index and a byte
    counter, which every operation is proved to keep equal to what the list determines. */
module PoolList {
  import opened Basics
  import opened Sorting
  import opened Messages

  /** Transaction ids and serialized sizes come from foreign code. */
  datatype Limits = Limits(id: Transaction -> string, size: Transaction -> nat, maxTransactions: nat, maxBytes: nat)

  /** What `with_limits` makes of its arguments. */
  predicate LimitsOk(m: Limits) {
    m.maxTransactions >= 1 && 1 <= m.maxBytes <= U64_MAX
  }

  type Key = (Address, u64)

  function KeyOf(tx: Transaction): Key { (tx.from, tx.nonce) }

  datatype AddError = Duplicate | TooLarge | Underpriced

  // ---------- The list ----------

  function PoolBytes(m: Limits, txs: seq<Transaction>): nat {
    if txs == [] then 0 else m.size(txs[0]) + PoolBytes(m, txs[1..])
  }

  function RemoveAt(txs: seq<Transaction>, i: nat): seq<Transaction>
    requires i < |txs|
  {
    txs[..i] + txs[i + 1..]
  }

  /** `min_by_key`: the first of the lowest fees. */
  function Cheapest(txs: seq<Transaction>): (i: nat)
    requires txs != []
    ensures i < |txs|
    ensures forall j :: 0 <= j < |txs| ==> txs[i].fee <= txs[j].fee
    ensures forall j :: 0 <= j < i ==> txs[i].fee < txs[j].fee
  {
    if |txs| == 1 then 0
    else
      var i := 1 + Cheapest(txs[1..]);
      if txs[0].fee <= txs[i].fee then 0 else i
  }

  predicate Full(m: Limits, txs: seq<Transaction>, size: nat) {
    |txs| >= m.maxTransactions || PoolBytes(m, txs) + size > m.maxBytes
  }

  function Evict(m: Limits, txs: seq<Transaction>, size: nat): seq<Transaction>
    decreases |txs|
  {
    if txs == [] || !Full(m, txs, size) then txs else Evict(m, RemoveAt(txs, Cheapest(txs)), size)
  }

  function Holder(txs: seq<Transaction>, key: Key): (r: Option<nat>)
    ensures r.Some? ==> r.value < |txs| && KeyOf(txs[r.value]) == key
    ensures r.None? ==> forall t :: t in txs ==> KeyOf(t) != key
  {
    if txs == [] then None
    else if KeyOf(txs[0]) == key then Some(0)
    else
      var r := Holder(txs[1..], key);
      if r.Some? then Some(1 + r.value) else None
  }

  predicate HasId(m: Limits, txs: seq<Transaction>, id: string) {
    exists t :: t in txs && m.id(t) == id
  }

  function MinimumFee(previous: u128): nat {
    Min(previous + Max(previous / 10, 1), U128_MAX)
  }

  function Add(m: Limits, txs: seq<Transaction>, tx: Transaction): Result<seq<Transaction>, AddError> {
    if HasId(m, txs, m.id(tx)) then Err(Duplicate)
    else if m.size(tx) > m.maxBytes then Err(TooLarge)
    else
      match Holder(txs, KeyOf(tx))
      case None => Ok(Evict(m, txs, m.size(tx)) + [tx])
      case Some(i) =>
        if tx.fee < MinimumFee(txs[i].fee) then Err(Underpriced)
        else Ok(Evict(m, RemoveAt(txs, i), m.size(tx)) + [tx])
  }

  /** Higher fee first, then lower nonce. */
  predicate Before(a: Transaction, b: Transaction) {
    a.fee > b.fee || (a.fee == b.fee && a.nonce <= b.nonce)
  }

  function Take(txs: seq<Transaction>, count: nat): nat { Min(count, |txs|) }

  /** The sublist for which the caller's test answered yes, by position. */
  function Retained(txs: seq<Transaction>, verdict: (nat, Transaction) -> bool, from: nat): seq<Transaction>
    requires from <= |txs|
    decreases |txs| - from
  {
    if from == |txs| then []
    else (if verdict(from, txs[from]) then [txs[from]] else []) + Retained(txs, verdict, from + 1)
  }

  // ---------- What the list keeps ----------

  /** No transaction, id or (sender, nonce) occurs twice. */
  ghost predicate Distinct(m: Limits, txs: seq<Transaction>) {
    && (forall t :: multiset(txs)[t] <= 1)
    && (forall a, b :: a in txs && b in txs && a != b ==> m.id(a) != m.id(b) && KeyOf(a) != KeyOf(b))
  }

  ghost predicate WellFormed(m: Limits, txs: seq<Transaction>) {
    Distinct(m, txs) && |txs| <= m.maxTransactions && PoolBytes(m, txs) <= m.maxBytes
  }

  lemma {:induction false} BytesConcat(m: Limits, a: seq<Transaction>, b: seq<Transaction>)
    ensures PoolBytes(m, a + b) == PoolBytes(m, a) + PoolBytes(m, b)
  {
    if a == [] {
      assert a + b == b;
    } else {
      assert (a + b)[1..] == a[1..] + b;
      BytesConcat(m, a[1..], b);
    }
  }

  lemma RemoveFacts(m: Limits, txs: seq<Transaction>, i: nat)
    requires i < |txs|
    ensures multiset(RemoveAt(txs, i)) == multiset(txs) - multiset{txs[i]}
    ensures PoolBytes(m, RemoveAt(txs, i)) == PoolBytes(m, txs) - m.size(txs[i])
  {
    assert txs == txs[..i] + ([txs[i]] + txs[i + 1..]);
    BytesConcat(m, txs[..i], [txs[i]] + txs[i + 1..]);
    BytesConcat(m, [txs[i]], txs[i + 1..]);
    BytesConcat(m, txs[..i], txs[i + 1..]);
    assert [txs[i]][1..] == [];
    assert multiset(txs) == multiset(txs[..i]) + multiset{txs[i]} + multiset(txs[i + 1..]);
  }

  lemma RemoveDistinct(m: Limits, txs: seq<Transaction>, i: nat)
    requires i < |txs| && Distinct(m, txs)
    ensures Distinct(m, RemoveAt(txs, i))
    ensures forall t :: t in RemoveAt(txs, i) <==> t in txs && t != txs[i]
  {
    RemoveFacts(m, txs, i);
    RemoveMembers(m, txs, i);
  }

  lemma RemoveMembers(m: Limits, txs: seq<Transaction>, i: nat)
    requires i < |txs| && multiset(txs)[txs[i]] <= 1
    ensures forall t :: t in RemoveAt(txs, i) <==> t in txs && t != txs[i]
  {
    RemoveFacts(m, txs, i);
    var rest := RemoveAt(txs, i);
    forall t ensures t in rest <==> t in txs && t != txs[i] {
      assert t in rest <==> t in multiset(rest);
      assert t in txs <==> t in multiset(txs);
    }
  }

  lemma CountedTwice(txs: seq<Transaction>, i: nat, j: nat)
    requires i < j < |txs| && txs[i] == txs[j]
    ensures multiset(txs)[txs[j]] >= 2
  {
    assert txs[..j][i] == txs[i];
    assert txs == txs[..j] + ([txs[j]] + txs[j + 1..]);
    assert multiset(txs) == multiset(txs[..j]) + multiset{txs[j]} + multiset(txs[j + 1..]);
  }

  lemma HolderUnique(m: Limits, txs: seq<Transaction>, i: nat)
    requires Distinct(m, txs) && i < |txs|
    ensures Holder(txs, KeyOf(txs[i])) == Some(i)
  {
    var h := Holder(txs, KeyOf(txs[i]));
    assert txs[i] in txs && h.Some? && txs[h.value] == txs[i];
    if h.value < i {
      CountedTwice(txs, h.value, i);
    } else if i < h.value {
      CountedTwice(txs, i, h.value);
    }
  }

  lemma AppendDistinct(m: Limits, txs: seq<Transaction>, tx: Transaction)
    requires Distinct(m, txs)
    requires forall t :: t in txs ==> m.id(t) != m.id(tx) && KeyOf(t) != KeyOf(tx)
    ensures Distinct(m, txs + [tx])
  {
    assert tx !in txs;
    assert multiset(txs + [tx]) == multiset(txs) + multiset{tx};
    assert multiset(txs)[tx] == 0;
  }

  /** Eviction makes room, keeps a sublist, and drops nothing that pays more than something
      it keeps. */
  lemma {:induction false} EvictFacts(m: Limits, txs: seq<Transaction>, size: nat)
    requires LimitsOk(m) && size <= m.maxBytes && Distinct(m, txs)
    ensures !Full(m, Evict(m, txs, size), size)
    ensures Distinct(m, Evict(m, txs, size))
    ensures forall t :: t in Evict(m, txs, size) ==> t in txs
    ensures forall gone, kept :: gone in txs && gone !in Evict(m, txs, size) && kept in Evict(m, txs, size) ==>
      gone.fee <= kept.fee
    decreases |txs|
  {
    if txs != [] && Full(m, txs, size) {
      var i := Cheapest(txs);
      var rest := RemoveAt(txs, i);
      RemoveDistinct(m, txs, i);
      EvictFacts(m, rest, size);
      forall gone, kept | gone in txs && gone !in Evict(m, rest, size) && kept in Evict(m, rest, size)
        ensures gone.fee <= kept.fee
      {
        assert kept in rest && kept in txs;
        if gone == txs[i] {
          var j :| 0 <= j < |txs| && txs[j] == kept;
        } else {
          assert gone in rest;
        }
      }
    }
  }

  /** Nothing is evicted without need: either nothing at all, or there was no room even with
      the last and best paying one of the evicted still in. */
  lemma {:induction false} EvictMinimal(m: Limits, txs: seq<Transaction>, size: nat)
    ensures Evict(m, txs, size) == txs || exists rest ::
      && rest != [] && multiset(rest) <= multiset(txs) && Full(m, rest, size)
      && Evict(m, txs, size) == RemoveAt(rest, Cheapest(rest))
    decreases |txs|
  {
    if txs != [] && Full(m, txs, size) {
      var fewer := RemoveAt(txs, Cheapest(txs));
      RemoveFacts(m, txs, Cheapest(txs));
      EvictMinimal(m, fewer, size);
      if Evict(m, fewer, size) != fewer {
        var rest :| rest != [] && multiset(rest) <= multiset(fewer) && Full(m, rest, size)
          && Evict(m, fewer, size) == RemoveAt(rest, Cheapest(rest));
        assert multiset(rest) <= multiset(txs);
      }
    }
  }

  /** What an accepted transaction does to the pool: it is in, at most the one transaction it
      replaces and the cheapest others are out, and everything stays within the limits. */
  lemma AddFacts(m: Limits, txs: seq<Transaction>, tx: Transaction)
    requires LimitsOk(m) && WellFormed(m, txs) && Add(m, txs, tx).Ok?
    ensures var after := Add(m, txs, tx).value;
      && WellFormed(m, after)
      && tx in after
      && (forall t :: t in after ==> t == tx || (t in txs && KeyOf(t) != KeyOf(tx)))
      && (forall t :: t in txs && KeyOf(t) == KeyOf(tx) ==> tx.fee > t.fee || tx.fee == U128_MAX)
      && (forall gone, kept ::
            gone in txs && gone !in after && KeyOf(gone) != KeyOf(tx) && kept in after && kept != tx ==>
            gone.fee <= kept.fee)
  {
    var holder := Holder(txs, KeyOf(tx));
    var base := if holder.Some? then RemoveAt(txs, holder.value) else txs;
    if holder.Some? {
      RemoveDistinct(m, txs, holder.value);
      ReplacedPaysMore(m, txs, tx, holder.value);
    }
    assert forall t :: t in base <==> t in txs && KeyOf(t) != KeyOf(tx);
    EvictFacts(m, base, m.size(tx));
    var kept := Evict(m, base, m.size(tx));
    AppendDistinct(m, kept, tx);
    BytesConcat(m, kept, [tx]);
    assert [tx][1..] == [];
  }

  lemma ReplacedPaysMore(m: Limits, txs: seq<Transaction>, tx: Transaction, i: nat)
    requires i < |txs| && Distinct(m, txs) && KeyOf(txs[i]) == KeyOf(tx) && tx.fee >= MinimumFee(txs[i].fee)
    ensures forall t :: t in txs && KeyOf(t) == KeyOf(tx) ==> t == txs[i] && (tx.fee > t.fee || tx.fee == U128_MAX)
  {
  }

  /** A transaction replaces the one with its sender and nonce exactly when it raises the fee
      by at least a tenth, rounded down, and by at least one unit; at the top of the range
      any fee is replaced by the greatest. */
  lemma ReplacesIff(m: Limits, txs: seq<Transaction>, tx: Transaction, held: Transaction)
    requires Distinct(m, txs) && held in txs && KeyOf(held) == KeyOf(tx)
    requires !HasId(m, txs, m.id(tx)) && m.size(tx) <= m.maxBytes
    ensures Add(m, txs, tx).Ok? <==>
      tx.fee == U128_MAX || (tx.fee > held.fee && 10 * (tx.fee - held.fee) + 10 > held.fee)
    ensures Add(m, txs, tx).Err? ==> Add(m, txs, tx).error == Underpriced
  {
    var i := Holder(txs, KeyOf(tx)).value;
    assert txs[i] == held;
  }

  /** A transaction that fits and clashes with nothing is simply appended. */
  lemma AddToRoom(m: Limits, txs: seq<Transaction>, tx: Transaction)
    requires LimitsOk(m) && |txs| < m.maxTransactions && PoolBytes(m, txs) + m.size(tx) <= m.maxBytes
    requires forall t :: t in txs ==> m.id(t) != m.id(tx) && KeyOf(t) != KeyOf(tx)
    ensures Add(m, txs, tx) == Ok(txs + [tx])
  {
  }

  function Readd(m: Limits, txs: seq<Transaction>, more: seq<Transaction>): seq<Transaction>
    decreases |more|
  {
    if more == [] then txs
    else Readd(m, if Add(m, txs, more[0]).Ok? then Add(m, txs, more[0]).value else txs, more[1..])
  }

  lemma PrefixWellFormed(m: Limits, a: seq<Transaction>, tx: Transaction, b: seq<Transaction>)
    requires WellFormed(m, a + ([tx] + b))
    ensures |a| < m.maxTransactions && PoolBytes(m, a) + m.size(tx) <= m.maxBytes
    ensures forall t :: t in a ==> m.id(t) != m.id(tx) && KeyOf(t) != KeyOf(tx)
  {
    BytesConcat(m, a, [tx] + b);
    assert ([tx] + b)[1..] == b;
    PrefixDiffers(m, a, tx, b);
  }

  lemma PrefixDiffers(m: Limits, a: seq<Transaction>, tx: Transaction, b: seq<Transaction>)
    requires Distinct(m, a + ([tx] + b))
    ensures forall t :: t in a ==> m.id(t) != m.id(tx) && KeyOf(t) != KeyOf(tx)
  {
    var all := a + ([tx] + b);
    assert all[|a|] == tx;
    forall t | t in a ensures m.id(t) != m.id(tx) && KeyOf(t) != KeyOf(tx) {
      var i :| 0 <= i < |a| && a[i] == t;
      assert all[i] == t;
      if t == tx {
        CountedTwice(all, i, |a|);
      }
    }
  }

  /** Adding the transactions of a well-formed pool again one by one rebuilds it. */
  lemma {:induction false} ReaddRebuilds(m: Limits, txs: seq<Transaction>, more: seq<Transaction>)
    requires LimitsOk(m) && WellFormed(m, txs + more)
    ensures Readd(m, txs, more) == txs + more
    decreases |more|
  {
    if more == [] {
      assert txs + more == txs;
    } else {
      assert txs + more == txs + ([more[0]] + more[1..]);
      PrefixWellFormed(m, txs, more[0], more[1..]);
      AddToRoom(m, txs, more[0]);
      MoveOver(txs, more);
      ReaddRebuilds(m, txs + [more[0]], more[1..]);
    }
  }

  lemma {:induction false} RetainedBelow(m: Limits, txs: seq<Transaction>, verdict: (nat, Transaction) -> bool,
                                         from: nat)
    requires from <= |txs|
    ensures multiset(Retained(txs, verdict, from)) <= multiset(txs[from..])
    ensures |Retained(txs, verdict, from)| <= |txs| - from
    ensures PoolBytes(m, Retained(txs, verdict, from)) <= PoolBytes(m, txs[from..])
    decreases |txs| - from
  {
    if from < |txs| {
      RetainedBelow(m, txs, verdict, from + 1);
      assert txs[from..] == [txs[from]] + txs[from + 1..];
      OneMore(m, txs[from], verdict(from, txs[from]), Retained(txs, verdict, from + 1), txs[from + 1..]);
    }
  }

  /** Keeping or dropping one more element stays below. */
  lemma OneMore(m: Limits, x: Transaction, keep: bool, part: seq<Transaction>, whole: seq<Transaction>)
    requires multiset(part) <= multiset(whole) && PoolBytes(m, part) <= PoolBytes(m, whole)
    ensures var more := (if keep then [x] else []) + part;
      multiset(more) <= multiset([x] + whole) && PoolBytes(m, more) <= PoolBytes(m, [x] + whole)
  {
    assert ([x] + whole)[1..] == whole && ([x] + part)[1..] == part;
    assert [] + part == part;
  }

  lemma SublistWellFormed(m: Limits, txs: seq<Transaction>, part: seq<Transaction>)
    requires WellFormed(m, txs) && multiset(part) <= multiset(txs)
    requires |part| <= |txs| && PoolBytes(m, part) <= PoolBytes(m, txs)
    ensures WellFormed(m, part)
  {
    forall t | t in part ensures t in txs {
      assert t in multiset(part) && t in multiset(txs);
    }
  }

  /** `retain_valid` empties the pool and adds the valid transactions again; what is left is
      exactly the valid sublist in its order. */
  lemma RetainKeepsSublist(m: Limits, txs: seq<Transaction>, verdict: (nat, Transaction) -> bool)
    requires LimitsOk(m) && WellFormed(m, txs)
    ensures Readd(m, [], Retained(txs, verdict, 0)) == Retained(txs, verdict, 0)
    ensures WellFormed(m, Retained(txs, verdict, 0))
  {
    var part := Retained(txs, verdict, 0);
    RetainedBelow(m, txs, verdict, 0);
    assert txs[0..] == txs;
    SublistWellFormed(m, txs, part);
    assert [] + part == part;
    ReaddRebuilds(m, [], part);
  }

  // ---------- Draining ----------

  lemma BeforeOrder()
    ensures TotalPreorder(Before)
  {
  }

  lemma {:induction false} BytesOfInsert(m: Limits, x: Transaction, txs: seq<Transaction>)
    ensures PoolBytes(m, Insert(Before, x, txs)) == m.size(x) + PoolBytes(m, txs)
  {
    if txs == [] || Before(x, txs[0]) {
      assert ([x] + txs)[1..] == txs;
    } else {
      BytesOfInsert(m, x, txs[1..]);
      assert ([txs[0]] + Insert(Before, x, txs[1..]))[1..] == Insert(Before, x, txs[1..]);
    }
  }

  lemma {:induction false} BytesOfSort(m: Limits, txs: seq<Transaction>)
    ensures PoolBytes(m, Sort(Before, txs)) == PoolBytes(m, txs)
  {
    if txs != [] {
      BytesOfSort(m, txs[1..]);
      BytesOfInsert(m, txs[0], Sort(Before, txs[1..]));
    }
  }

  lemma PermutedDistinct(m: Limits, a: seq<Transaction>, b: seq<Transaction>)
    requires Distinct(m, a) && multiset(a) == multiset(b) && forall t :: t in b <==> t in a
    ensures Distinct(m, b)
  {
  }

  lemma SortedWellFormed(m: Limits, txs: seq<Transaction>)
    requires WellFormed(m, txs)
    ensures WellFormed(m, Sort(Before, txs))
    ensures forall t :: t in Sort(Before, txs) <==> t in txs
  {
    BeforeOrder();
    SortFacts(Before, txs);
    BytesOfSort(m, txs);
    PermutedDistinct(m, txs, Sort(Before, txs));
  }

  /** The pool in the order in which it is drained. */
  function Ranked(txs: seq<Transaction>): (all: seq<Transaction>)
    ensures |all| == |txs|
  {
    BeforeOrder();
    SortFacts(Before, txs);
    Sort(Before, txs)
  }

  /** The drained transactions and the rest are the pool, and each drained one comes before
      each one left behind. */
  lemma DrainTakesTop(txs: seq<Transaction>, count: nat)
    ensures var all := Ranked(txs); var n := Take(txs, count);
      && multiset(all[..n]) + multiset(all[n..]) == multiset(txs)
      && (forall i, j :: 0 <= i < n <= j < |all| ==>
            all[i].fee > all[j].fee || (all[i].fee == all[j].fee && all[i].nonce <= all[j].nonce))
      && Sorted(Before, all[..n])
  {
    BeforeOrder();
    SortFacts(Before, txs);
    SplitAt(Ranked(txs), Take(txs, count));
  }

  /** Equally ranked transactions leave in order of arrival. */
  lemma TiesInOrderOfArrival(txs: seq<Transaction>, fee: u128, nonce: u64)
    ensures var tie := (t: Transaction) => t.fee == fee && t.nonce == nonce;
      Filter(tie, Sort(Before, txs)) == Filter(tie, txs)
  {
    SortStable(Before, (t: Transaction) => t.fee == fee && t.nonce == nonce, txs);
  }

  // ---------- Saturation ----------

  /** The byte sum of the guard does not saturate, or saturates above the limit. */
  predicate Countable(m: Limits, bytes: nat, size: nat) {
    m.maxBytes < U64_MAX || bytes + size <= U64_MAX
  }

  predicate GuardsAgree(a: nat, b: nat, maxBytes: nat) {
    Min(a + b, U64_MAX) > maxBytes <==> a + b > maxBytes
  }

  /** The eviction guard on the saturating sum agrees with the guard on the exact sum for all
      sizes within the limit if and only if the limit is below the largest `usize`. */
  lemma SaturatingGuardIff(maxBytes: u64)
    ensures (forall a: nat, b: nat :: a <= maxBytes && b <= maxBytes ==> GuardsAgree(a, b, maxBytes))
       <==> maxBytes < U64_MAX
  {
    if maxBytes == U64_MAX {
      assert !GuardsAgree(U64_MAX, U64_MAX, maxBytes);
    }
  }
}
