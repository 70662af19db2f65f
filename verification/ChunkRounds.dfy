/** What one call of `assign` does (src/snapshot_scheduler.rs): exactly the assignments that
    have run out of time are taken back, and chunks are handed out until the cap, the queue
    or the peers are used up. */
module ChunkRounds {
  import opened Basics
  import opened Chunks
  import opened RoundRobin

  // ---------- Taking back ----------

  /** The assignment of a chunk is still what it was. */
  predicate Untouched(s: Scheduler, t: Scheduler, c: Chunk) {
    c in s.inFlight && c in t.inFlight && t.inFlight[c] == s.inFlight[c]
  }

  /** The assignment of a chunk was taken back and counted against its peer. */
  predicate TakenBack(s: Scheduler, t: Scheduler, c: Chunk) {
    && c in s.inFlight && c !in t.inFlight && c in t.pending
    && var peer := s.inFlight[c].peer;
    Failed(t.failures, peer, c) == Failed(s.failures, peer, c) + 1
  }

  lemma FailOne(s: Scheduler, c: Chunk)
    requires c in s.inFlight
    ensures var t := Fail(s, s.inFlight[c].peer, c);
      && TakenBack(s, t, c) && t.inFlight == s.inFlight - {c} && t.pending == s.pending + [c]
      && (forall p, d :: d != c || p != s.inFlight[c].peer ==> Failed(t.failures, p, d) == Failed(s.failures, p, d))
  {
  }

  /** Requeueing takes back the listed assignments and no others. */
  lemma {:induction false} RequeueTakesBack(s: Scheduler, order: seq<Chunk>, c: Chunk)
    requires forall i, j :: 0 <= i < j < |order| ==> order[i] != order[j]
    requires c in s.inFlight
    ensures var t := RequeueAll(s, order);
      && s.pending <= t.pending
      && (c in order ==> TakenBack(s, t, c))
      && (c !in order ==> Untouched(s, t, c))
    decreases |order|
  {
    if order != [] {
      var first, rest := order[0], order[1..];
      assert forall d :: d in order <==> d == first || d in rest;
      assert first !in rest;
      if first in s.inFlight {
        FailOne(s, first);
        var m := Fail(s, s.inFlight[first].peer, first);
        if c == first {
          RequeueLeaves(m, rest, c);
        } else {
          RequeueTakesBack(m, rest, c);
        }
      } else {
        RequeueTakesBack(s, rest, c);
      }
    }
  }

  lemma {:induction false} RequeueLeaves(s: Scheduler, order: seq<Chunk>, c: Chunk)
    requires c !in order && c !in s.inFlight
    ensures var t := RequeueAll(s, order);
      && s.pending <= t.pending && c !in t.inFlight
      && (forall p :: Failed(t.failures, p, c) == Failed(s.failures, p, c))
    decreases |order|
  {
    if order != [] {
      var first, rest := order[0], order[1..];
      assert first in order && forall d :: d in rest ==> d in order;
      if first in s.inFlight {
        FailOne(s, first);
        RequeueLeaves(Fail(s, s.inFlight[first].peer, first), rest, c);
      } else {
        RequeueLeaves(s, rest, c);
      }
    }
  }

  /** No other count changes. */
  lemma {:induction false} RequeueCounts(s: Scheduler, order: seq<Chunk>, p: Peer, c: Chunk)
    requires !(c in order && Assigned(s, p, c))
    ensures Failed(RequeueAll(s, order).failures, p, c) == Failed(s.failures, p, c)
    decreases |order|
  {
    if order != [] {
      assert order[0] in order && forall d :: d in order[1..] ==> d in order;
      if order[0] in s.inFlight {
        FailOne(s, order[0]);
        RequeueCounts(Fail(s, s.inFlight[order[0]].peer, order[0]), order[1..], p, c);
      } else {
        RequeueCounts(s, order[1..], p, c);
      }
    }
  }

  lemma {:induction false} RequeueFlight(s: Scheduler, order: seq<Chunk>)
    ensures RequeueAll(s, order).inFlight.Keys <= s.inFlight.Keys && RequeueAll(s, order).cursor == s.cursor
    decreases |order|
  {
    if order != [] {
      if order[0] in s.inFlight {
        FailOne(s, order[0]);
        RequeueFlight(Fail(s, s.inFlight[order[0]].peer, order[0]), order[1..]);
      } else {
        RequeueFlight(s, order[1..]);
      }
    }
  }

  // ---------- Handing out ----------

  /** The round robin found nobody for the chunk that was put back at the end. */
  ghost predicate GaveUp(cfg: Settings, t: Scheduler, cursor: nat)
    requires cfg.peers != []
  {
    && t.pending != [] && cursor < USIZE
    && NextPeer(cfg, t.failures, cursor, t.pending[|t.pending| - 1], |cfg.peers|).0 == None
  }

  /** Handing out keeps earlier assignments, marks new ones with the time, and stops only at
      the cap, with an empty queue, or at a chunk that nobody may try again. */
  ghost predicate HandedOut(cfg: Settings, s: Scheduler, t: Scheduler, now: nat)
    requires cfg.peers != []
  {
    && t.failures == s.failures && t.completed == s.completed && s.log <= t.log
    && (forall c :: c in s.inFlight && c !in s.pending ==> Untouched(s, t, c))
    && (forall c :: c in t.inFlight ==> Untouched(s, t, c) || (c in s.pending && t.inFlight[c].started == now))
    && (|t.inFlight| >= cfg.maxInFlight || t.pending == [] || exists cursor :: GaveUp(cfg, t, cursor))
  }

  lemma {:induction false} LoopHandsOut(cfg: Settings, s: Scheduler, now: nat)
    requires cfg.peers != [] && s.cursor < USIZE
    ensures HandedOut(cfg, s, AssignLoop(cfg, s, now), now)
    decreases |s.pending|
  {
    if |s.inFlight| < cfg.maxInFlight && s.pending != [] {
      var (t, again) := AssignNext(cfg, s, now);
      var chunk := s.pending[0];
      GivesUpIff(cfg, s.failures, s.cursor, chunk, |cfg.peers|);
      assert s.pending == [chunk] + s.pending[1..];
      if again {
        LoopHandsOut(cfg, t, now);
      } else {
        assert GaveUp(cfg, t, s.cursor);
      }
    }
  }

  /** A delivery counts exactly when the chunk is in flight with that very peer; then it is
      delivered by that peer and in flight no longer, and nothing else changes. */
  lemma DeliveredIff(s: Scheduler, peer: Peer, chunk: Chunk)
    ensures Complete(s, peer, chunk).Some? <==> chunk in s.inFlight && s.inFlight[chunk].peer == peer
    ensures Complete(s, peer, chunk).Some? ==>
      var t := Complete(s, peer, chunk).value;
      && chunk in t.completed && t.completed[chunk] == peer && chunk !in t.inFlight
      && (forall c :: c in s.inFlight && c != chunk ==> Untouched(s, t, c))
      && (forall c :: c in s.completed && c != chunk ==> c in t.completed && t.completed[c] == s.completed[c])
      && t.pending == s.pending && t.failures == s.failures
  {
  }

  // ---------- One call ----------

  /** How long a chunk has been in flight; a clock that went back counts as no time. */
  function Age(now: nat, f: InFlight): nat {
    if now >= f.started then now - f.started else 0
  }

  ghost predicate ListsOverdue(cfg: Settings, s: Scheduler, now: nat, order: seq<Chunk>) {
    && (forall i, j :: 0 <= i < j < |order| ==> order[i] != order[j])
    && (forall c :: c in order <==> c in s.inFlight && Age(now, s.inFlight[c]) >= cfg.timeout)
  }

  lemma CountedTwice(order: seq<Chunk>, i: nat, j: nat)
    requires i < j < |order| && order[i] == order[j]
    ensures multiset(order)[order[i]] >= 2
  {
    assert order[..j][i] == order[i];
    assert order == order[..j] + ([order[j]] + order[j + 1..]);
    assert multiset(order) == multiset(order[..j]) + multiset{order[j]} + multiset(order[j + 1..]);
  }

  /** The order in which the object visits the overdue chunks is such a list. */
  lemma VisitsOverdue(cfg: Settings, s: Scheduler, now: nat, order: seq<Chunk>)
    requires multiset(order) == multiset(Overdue(cfg, s, now))
    ensures ListsOverdue(cfg, s, now, order)
  {
    forall c ensures c in order <==> c in Overdue(cfg, s, now) {
      assert c in order <==> c in multiset(order);
    }
    forall i, j | 0 <= i < j < |order| ensures order[i] != order[j] {
      if order[i] == order[j] {
        CountedTwice(order, i, j);
      }
    }
  }

  /** One call of `assign`: an assignment younger than the timeout stays as it is; an older
      one is counted against its peer and its chunk waits again or has been handed out anew;
      afterwards everything in flight is in time or new, and if there is room in flight and chunks are
      waiting, then the last of them has been tried in vain. */
  lemma AssignRound(cfg: Settings, s: Scheduler, now: nat, order: seq<Chunk>)
    requires cfg.peers != [] && s.cursor < USIZE && ListsOverdue(cfg, s, now, order)
    ensures var t := Assign(cfg, s, now, order);
      && (forall c :: c in s.inFlight && c !in s.pending && Age(now, s.inFlight[c]) < cfg.timeout ==>
            Untouched(s, t, c))
      && (forall c :: c in order ==> Failed(t.failures, s.inFlight[c].peer, c)
                                       == Failed(s.failures, s.inFlight[c].peer, c) + 1)
      && (forall p, c :: !(c in order && Assigned(s, p, c)) ==>
            Failed(t.failures, p, c) == Failed(s.failures, p, c))
      && (forall c :: c in t.inFlight ==> t.inFlight[c].started == now || Age(now, t.inFlight[c]) < cfg.timeout)
      && (|t.inFlight| >= cfg.maxInFlight || t.pending == [] || exists cursor :: GaveUp(cfg, t, cursor))
  {
    var m := RequeueAll(s, order);
    var t := Assign(cfg, s, now, order);
    RequeueFlight(s, order);
    LoopHandsOut(cfg, m, now);
    forall c | c in s.inFlight && c !in s.pending && Age(now, s.inFlight[c]) < cfg.timeout
      ensures Untouched(s, t, c)
    {
      RequeueTakesBack(s, order, c);
      YoungStays(s, order, c);
    }
    forall c | c in order
      ensures Failed(t.failures, s.inFlight[c].peer, c) == Failed(s.failures, s.inFlight[c].peer, c) + 1
    {
      RequeueTakesBack(s, order, c);
    }
    forall p, c | !(c in order && Assigned(s, p, c)) ensures Failed(t.failures, p, c) == Failed(s.failures, p, c) {
      RequeueCounts(s, order, p, c);
    }
    forall c | c in t.inFlight ensures t.inFlight[c].started == now || Age(now, t.inFlight[c]) < cfg.timeout {
      if Untouched(m, t, c) {
        RequeueTakesBack(s, order, c);
      }
    }
  }

  lemma {:induction false} YoungStays(s: Scheduler, order: seq<Chunk>, c: Chunk)
    requires c !in order && c !in s.pending
    ensures c !in RequeueAll(s, order).pending
    decreases |order|
  {
    if order != [] {
      assert order[0] in order && forall d :: d in order[1..] ==> d in order;
      if order[0] in s.inFlight {
        FailOne(s, order[0]);
        YoungStays(Fail(s, s.inFlight[order[0]].peer, order[0]), order[1..], c);
      } else {
        YoungStays(s, order[1..], c);
      }
    }
  }

  /** When the round robin gives up on a chunk, every peer has used up its tries for it,
      provided the round of the cursor sees every peer. */
  lemma GaveUpMeansExhausted(cfg: Settings, t: Scheduler, cursor: nat)
    requires cfg.peers != [] && GaveUp(cfg, t, cursor) && EveryPeerSeen(cfg, cursor)
    ensures AllExhausted(cfg, t.failures, t.pending[|t.pending| - 1])
  {
    SeenSuffices(cfg, t.failures, cursor, t.pending[|t.pending| - 1]);
  }
}
