/** The pool object with its three indexes, proved operation by operation against the list. */
module MempoolMachine {
  import opened Basics
  import opened Messages
  import opened PoolList

  ghost predicate Held(txs: seq<Transaction>, key: Key) {
    exists t :: t in txs && KeyOf(t) == key
  }

  /** The indexes are what the list determines. */
  ghost predicate Indexes(m: Limits, txs: seq<Transaction>, ids: set<string>, index: map<Key, string>, bytes: nat) {
    && Distinct(m, txs)
    && bytes == PoolBytes(m, txs)
    && (forall t :: t in txs ==> m.id(t) in ids)
    && (forall id :: id in ids ==> HasId(m, txs, id))
    && (forall t :: t in txs ==> KeyOf(t) in index && index[KeyOf(t)] == m.id(t))
    && (forall k :: k in index ==> Held(txs, k))
  }

  lemma IndexRemove(m: Limits, txs: seq<Transaction>, ids: set<string>, index: map<Key, string>, bytes: nat, i: nat)
    requires i < |txs| && Indexes(m, txs, ids, index, bytes)
    ensures bytes >= m.size(txs[i])
    ensures Indexes(m, RemoveAt(txs, i), ids - {m.id(txs[i])}, index - {KeyOf(txs[i])}, bytes - m.size(txs[i]))
  {
    RemoveDistinct(m, txs, i);
    RemoveFacts(m, txs, i);
    var rest, gone := RemoveAt(txs, i), txs[i];
    forall id | id in ids - {m.id(gone)} ensures HasId(m, rest, id) {
      var t :| t in txs && m.id(t) == id;
      assert t in rest;
    }
    forall k | k in index - {KeyOf(gone)} ensures Held(rest, k) {
      var t :| t in txs && KeyOf(t) == k;
      assert t in rest;
    }
  }

  lemma IndexAppend(m: Limits, txs: seq<Transaction>, ids: set<string>, index: map<Key, string>, bytes: nat,
                    tx: Transaction)
    requires Indexes(m, txs, ids, index, bytes) && m.id(tx) !in ids && KeyOf(tx) !in index
    ensures Indexes(m, txs + [tx], ids + {m.id(tx)}, index[KeyOf(tx) := m.id(tx)], bytes + m.size(tx))
  {
    AppendDistinct(m, txs, tx);
    BytesConcat(m, txs, [tx]);
    assert [tx][1..] == [];
    var all := txs + [tx];
    assert tx in all;
    forall id | id in ids + {m.id(tx)} ensures HasId(m, all, id) {
      if id in ids {
        var t :| t in txs && m.id(t) == id;
        assert t in all;
      }
    }
    forall k | k in index ensures Held(all, k) {
      var t :| t in txs && KeyOf(t) == k;
      assert t in all;
    }
    assert Held(all, KeyOf(tx));
  }

  lemma IndexPermute(m: Limits, a: seq<Transaction>, b: seq<Transaction>, ids: set<string>, index: map<Key, string>,
                     bytes: nat)
    requires Indexes(m, a, ids, index, bytes) && Distinct(m, b) && PoolBytes(m, b) == PoolBytes(m, a)
      && forall t :: t in b <==> t in a
    ensures Indexes(m, b, ids, index, bytes)
  {
    forall id | id in ids ensures HasId(m, b, id) {
      var t :| t in a && m.id(t) == id;
      assert t in b;
    }
    forall k | k in index ensures Held(b, k) {
      var t :| t in a && KeyOf(t) == k;
      assert t in b;
    }
  }

  lemma RetainedStep(done: seq<Transaction>, txs: seq<Transaction>, verdict: (nat, Transaction) -> bool, i: nat)
    requires i < |txs|
    ensures done + Retained(txs, verdict, i)
      == (if verdict(i, txs[i]) then done + [txs[i]] else done) + Retained(txs, verdict, i + 1)
  {
  }

  /** Adding a well-formed list again meets no obstacle. */
  lemma NextFits(m: Limits, txs: seq<Transaction>, i: nat)
    requires LimitsOk(m) && WellFormed(m, txs) && i < |txs|
    ensures PoolList.Add(m, txs[..i], txs[i]) == Ok(txs[..i + 1])
    ensures Countable(m, PoolBytes(m, txs[..i]), m.size(txs[i]))
  {
    TakeNext(txs, i);
    assert txs == txs[..i] + ([txs[i]] + txs[i + 1..]);
    PrefixWellFormed(m, txs[..i], txs[i], txs[i + 1..]);
    AddToRoom(m, txs[..i], txs[i]);
  }

  /** The set and the index answer for the whole list. */
  lemma IndexAnswers(m: Limits, txs: seq<Transaction>, ids: set<string>, index: map<Key, string>, bytes: nat,
                     tx: Transaction)
    requires Indexes(m, txs, ids, index, bytes)
    ensures HasId(m, txs, m.id(tx)) <==> m.id(tx) in ids
    ensures Holder(txs, KeyOf(tx)).Some? <==> KeyOf(tx) in index
  {
    if KeyOf(tx) in index {
      assert Held(txs, KeyOf(tx));
    }
    var h := Holder(txs, KeyOf(tx));
    if h.Some? {
      assert txs[h.value] in txs;
    }
  }

  class Mempool {
    const m: Limits
    var transactions: seq<Transaction>
    var ids: set<string>
    var senderNonce: map<Key, string>
    var totalBytes: nat

    ghost predicate Valid()
      reads this
    {
      && LimitsOk(m)
      && Indexes(m, transactions, ids, senderNonce, totalBytes)
      && |transactions| <= m.maxTransactions && totalBytes <= m.maxBytes
    }

    constructor WithLimits(id: Transaction -> string, size: Transaction -> nat, maxTransactions: nat, maxBytes: nat)
      requires maxBytes <= U64_MAX
      ensures Valid() && transactions == []
      ensures m == Limits(id, size, Max(maxTransactions, 1), Max(maxBytes, 1))
    {
      m := Limits(id, size, Max(maxTransactions, 1), Max(maxBytes, 1));
      transactions, ids, senderNonce, totalBytes := [], {}, map[], 0;
    }

    /** With the largest byte limit, the sizes together must still fit `usize`. */
    method Add(tx: Transaction) returns (r: Result<(), AddError>)
      requires Valid() && Countable(m, totalBytes, m.size(tx))
      modifies this
      ensures Valid()
      ensures match PoolList.Add(m, old(transactions), tx)
        case Ok(after) => r == Ok(()) && transactions == after
        case Err(e) =>
          && r == Err(e) && transactions == old(transactions)
          && ids == old(ids) && senderNonce == old(senderNonce) && totalBytes == old(totalBytes)
    {
      IndexAnswers(m, transactions, ids, senderNonce, totalBytes, tx);
      if m.id(tx) in ids {
        return Err(Duplicate);
      }
      if m.size(tx) > m.maxBytes {
        return Err(TooLarge);
      }
      var key := KeyOf(tx);
      if key in senderNonce {
        var position := PositionOf(senderNonce[key], key);
        if tx.fee < MinimumFee(transactions[position].fee) {
          return Err(Underpriced);
        }
        Replace(position, key);
      } else {
        assert senderNonce - {key} == senderNonce;
      }
      Insert(tx);
      r := Ok(());
    }

    method Insert(tx: Transaction)
      requires LimitsOk(m) && m.size(tx) <= m.maxBytes && totalBytes <= m.maxBytes && m.id(tx) !in ids
      requires Indexes(m, transactions, ids, senderNonce - {KeyOf(tx)}, totalBytes)
        && Countable(m, totalBytes, m.size(tx))
      modifies this
      ensures Valid() && transactions == Evict(m, old(transactions), m.size(tx)) + [tx]
    {
      EvictFacts(m, transactions, m.size(tx));
      MakeRoom(m.size(tx), KeyOf(tx));
      Push(tx);
    }

    method Push(tx: Transaction)
      requires LimitsOk(m) && m.id(tx) !in ids && !Full(m, transactions, m.size(tx))
      requires Indexes(m, transactions, ids, senderNonce - {KeyOf(tx)}, totalBytes)
      modifies this
      ensures Valid() && transactions == old(transactions) + [tx]
    {
      var id, key := m.id(tx), KeyOf(tx);
      IndexAppend(m, transactions, ids, senderNonce - {key}, totalBytes, tx);
      assert (senderNonce - {key})[key := id] == senderNonce[key := id];
      ids := ids + {id};
      senderNonce := senderNonce[key := id];
      totalBytes := Min(totalBytes + m.size(tx), U64_MAX);
      transactions := transactions + [tx];
    }

    /** The holder of a nonce, found by its id; the index never points outside the list. */
    method PositionOf(id: string, key: Key) returns (position: nat)
      requires Valid() && key in senderNonce && senderNonce[key] == id
      ensures position < |transactions| && Holder(transactions, key) == Some(position)
    {
      ghost var t: Transaction :| t in transactions && KeyOf(t) == key;
      ghost var k :| 0 <= k < |transactions| && transactions[k] == t;
      position := 0;
      while m.id(transactions[position]) != id
        invariant position <= k
        decreases k - position
      {
        position := position + 1;
      }
      assert transactions[position] == t;
      HolderUnique(m, transactions, position);
    }

    method Replace(position: nat, key: Key)
      requires Valid() && position < |transactions| && KeyOf(transactions[position]) == key
      modifies this
      ensures transactions == RemoveAt(old(transactions), position)
      ensures Indexes(m, transactions, ids, senderNonce - {key}, totalBytes)
      ensures totalBytes <= old(totalBytes) && ids <= old(ids)
    {
      var previous := transactions[position];
      IndexRemove(m, transactions, ids, senderNonce, totalBytes, position);
      totalBytes := Max(totalBytes - m.size(previous), 0);
      ids := ids - {m.id(previous)};
      transactions := RemoveAt(transactions, position);
    }

    /** Evicts the cheapest transactions until one more of the given size fits. The entry of
        `key`, if any, is about to be overwritten. */
    method MakeRoom(size: nat, key: Key)
      requires LimitsOk(m) && size <= m.maxBytes && totalBytes <= m.maxBytes && Countable(m, totalBytes, size)
      requires Indexes(m, transactions, ids, senderNonce - {key}, totalBytes)
      modifies this
      ensures transactions == Evict(m, old(transactions), size)
      ensures Indexes(m, transactions, ids, senderNonce - {key}, totalBytes)
      ensures ids <= old(ids)
    {
      while transactions != [] && (|transactions| >= m.maxTransactions || Min(totalBytes + size, U64_MAX) > m.maxBytes)
        invariant Indexes(m, transactions, ids, senderNonce - {key}, totalBytes)
        invariant totalBytes <= old(totalBytes) && ids <= old(ids)
        invariant Evict(m, transactions, size) == Evict(m, old(transactions), size)
        decreases |transactions|
      {
        var position := FindCheapest();
        var gone := Remove(position, {key});
      }
    }

    method FindCheapest() returns (position: nat)
      requires transactions != []
      ensures position == Cheapest(transactions)
    {
      position := 0;
      var i := 1;
      while i < |transactions|
        invariant 1 <= i <= |transactions| && position < i
        invariant forall j :: 0 <= j < i ==> transactions[position].fee <= transactions[j].fee
        invariant forall j :: 0 <= j < position ==> transactions[position].fee < transactions[j].fee
      {
        if transactions[i].fee < transactions[position].fee {
          position := i;
        }
        i := i + 1;
      }
      var c := Cheapest(transactions);
      assert transactions[c].fee == transactions[position].fee;
    }

    /** `remove_at`, also used while the entries of `aside` are out of date. */
    method Remove(position: nat, ghost aside: set<Key>) returns (gone: Transaction)
      requires position < |transactions| && Indexes(m, transactions, ids, senderNonce - aside, totalBytes)
      modifies this
      ensures gone == old(transactions)[position] && transactions == RemoveAt(old(transactions), position)
      ensures Indexes(m, transactions, ids, senderNonce - aside, totalBytes)
      ensures totalBytes <= old(totalBytes) && ids <= old(ids)
    {
      gone := transactions[position];
      IndexRemove(m, transactions, ids, senderNonce - aside, totalBytes, position);
      transactions := RemoveAt(transactions, position);
      ids := ids - {m.id(gone)};
      assert (senderNonce - {KeyOf(gone)}) - aside == (senderNonce - aside) - {KeyOf(gone)};
      senderNonce := senderNonce - {KeyOf(gone)};
      totalBytes := Max(totalBytes - m.size(gone), 0);
    }

    /** Sorts in place and removes from the front. */
    method Drain(count: nat) returns (selected: seq<Transaction>)
      requires Valid()
      modifies this
      ensures Valid()
      ensures selected == Ranked(old(transactions))[..Take(old(transactions), count)]
      ensures transactions == Ranked(old(transactions))[Take(old(transactions), count)..]
    {
      SortInPlace();
      ghost var all := transactions;
      selected := [];
      while |selected| < count && transactions != []
        invariant Valid()
        invariant |selected| <= count && |selected| <= |all|
        invariant selected == all[..|selected|] && transactions == all[|selected|..]
        decreases |transactions|
      {
        var first := RemoveFirst();
        assert all[..|selected| + 1] == all[..|selected|] + [all[|selected|]];
        selected := selected + [first];
      }
    }

    method SortInPlace()
      requires Valid()
      modifies this
      ensures Valid() && transactions == Ranked(old(transactions))
    {
      SortedWellFormed(m, transactions);
      BytesOfSort(m, transactions);
      IndexPermute(m, transactions, Ranked(transactions), ids, senderNonce, totalBytes);
      transactions := Ranked(transactions);
    }

    method RemoveFirst() returns (first: Transaction)
      requires Valid() && transactions != []
      modifies this
      ensures Valid() && first == old(transactions)[0] && transactions == old(transactions)[1..]
    {
      assert senderNonce - {} == senderNonce;
      first := Remove(0, {});
      assert senderNonce - {} == senderNonce;
    }

    /** Empties the pool and adds back what the caller's test accepts. */
    method RetainValid(verdict: (nat, Transaction) -> bool)
      requires Valid()
      modifies this
      ensures Valid()
      ensures transactions == Retained(old(transactions), verdict, 0)
    {
      RetainKeepsSublist(m, transactions, verdict);
      var retained := Filtered(verdict);
      transactions, ids, senderNonce, totalBytes := [], {}, map[], 0;
      AddAll(retained);
    }

    method AddAll(retained: seq<Transaction>)
      requires Valid() && transactions == [] && WellFormed(m, retained)
      modifies this
      ensures Valid() && transactions == retained
    {
      var i := 0;
      while i < |retained|
        invariant 0 <= i <= |retained| && Valid() && transactions == retained[..i]
      {
        NextFits(m, retained, i);
        var ignored := Add(retained[i]);
        i := i + 1;
      }
    }

    method Filtered(verdict: (nat, Transaction) -> bool) returns (retained: seq<Transaction>)
      ensures retained == Retained(transactions, verdict, 0)
    {
      retained := [];
      var i := 0;
      assert [] + Retained(transactions, verdict, 0) == Retained(transactions, verdict, 0);
      while i < |transactions|
        invariant 0 <= i <= |transactions|
        invariant retained + Retained(transactions, verdict, i) == Retained(transactions, verdict, 0)
      {
        RetainedStep(retained, transactions, verdict, i);
        if verdict(i, transactions[i]) {
          retained := retained + [transactions[i]];
        }
        i := i + 1;
      }
    }
  }
}
