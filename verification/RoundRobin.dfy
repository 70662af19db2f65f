/** How the round robin of the chunk scheduler (src/snapshot_scheduler.rs, `next_peer`)
    meets the wrap-around of its cursor. */
module RoundRobin {
  import opened Basics
  import opened Chunks

  /** The position that try number `k` of a round over `n` peers looks at. */
  function Spot(cursor: nat, n: nat, k: nat): (i: nat)
    requires n > 0
    ensures i < n
  {
    (cursor + k) % USIZE % n
  }

  ghost predicate Seen(cursor: nat, n: nat, i: nat)
    requires n > 0
  {
    exists k: nat :: k < n && Spot(cursor, n, k) == i
  }

  /** A round sees every peer unless the cursor wraps inside it at a bad place. */
  predicate WholeRound(cursor: nat, n: nat)
    requires n > 0
  {
    cursor + n <= USIZE || USIZE % n == 0
  }

  lemma QuotientRemainder(q: int, n: nat, r: nat)
    requires n > 0 && r < n
    ensures (q * n + r) % n == r
  {
    var x := q * n + r;
    var d := x / n - q;
    assert x == (x / n) * n + x % n;
    assert d * n == r - x % n;
    SmallMultiple(d, n);
  }

  lemma SmallMultiple(d: int, n: int)
    requires n > 0 && -n < d * n < n
    ensures d == 0
  {
    assert d >= 1 ==> d * n >= 1 * n;
    assert d <= -1 ==> d * n <= -1 * n;
  }

  /** Some step of at most n - 1 leads to any residue. */
  lemma StepTo(start: nat, n: nat, i: nat) returns (k: nat)
    requires n > 0 && i < n
    ensures k < n && (start + k) % n == i
  {
    var r, q := start % n, start / n;
    assert start == q * n + r;
    if r <= i {
      k := i - r;
      QuotientRemainder(q, n, i);
    } else {
      k := n + i - r;
      assert start + k == (q + 1) * n + i;
      QuotientRemainder(q + 1, n, i);
    }
  }

  lemma WholeRoundLooks(cursor: nat, n: nat, i: nat)
    requires cursor < USIZE && 0 < n < USIZE && i < n && WholeRound(cursor, n)
    ensures Seen(cursor, n, i)
  {
    var k := StepTo(cursor, n, i);
    if cursor + k >= USIZE {
      var q := USIZE / n;
      var r := cursor + k - USIZE;
      assert USIZE == q * n;
      assert (cursor + k) % USIZE == r;
      var p := r / n;
      assert r == p * n + r % n;
      assert cursor + k == (p + q) * n + r % n;
      QuotientRemainder(p + q, n, r % n);
    }
    assert Spot(cursor, n, k) == i;
  }

  /** A position that a badly wrapped round never looks at. */
  function Overlooked(cursor: nat, n: nat): nat
    requires 0 < n < USIZE && cursor < USIZE < cursor + n
  {
    var w, m := USIZE - cursor, USIZE % n;
    if w <= m then n - 1 else Max(n - w, m)
  }

  lemma BadWrapOverlooks(cursor: nat, n: nat, k: nat)
    requires cursor < USIZE && 0 < n < USIZE && !WholeRound(cursor, n)
    ensures Overlooked(cursor, n) < n
    ensures k < n ==> Spot(cursor, n, k) != Overlooked(cursor, n)
  {
    var w, m, q := USIZE - cursor, USIZE % n, USIZE / n;
    assert USIZE == q * n + m;
    if k < w {
      if k < n {
        BeforeWrap(cursor, n, k, q, m);
      }
    } else if k < n {
      assert (cursor + k) % USIZE == k - w;
      QuotientRemainder(0, n, k - w);
    }
  }

  lemma BeforeWrap(cursor: nat, n: nat, k: nat, q: nat, m: nat)
    requires cursor < USIZE && 0 < n < USIZE && USIZE == q * n + m && 0 < m < n && k < USIZE - cursor < n && k < n
    ensures var w := USIZE - cursor; (cursor + k) % USIZE % n == if m - w + k >= 0 then m - w + k else n + m - w + k
  {
    var r := m - (USIZE - cursor) + k;
    assert cursor + k == q * n + r;
    if r >= 0 {
      QuotientRemainder(q, n, r);
    } else {
      assert cursor + k == (q - 1) * n + (n + r);
      QuotientRemainder(q - 1, n, n + r);
    }
  }

  /** A round sees every position if and only if the cursor does not wrap inside it, or wraps
      to a multiple of the number of peers. */
  lemma SeesAllIff(cursor: nat, n: nat)
    requires cursor < USIZE && 0 < n < USIZE
    ensures (forall i: nat :: i < n ==> Seen(cursor, n, i)) <==> WholeRound(cursor, n)
  {
    if WholeRound(cursor, n) {
      forall i: nat | i < n ensures Seen(cursor, n, i) {
        WholeRoundLooks(cursor, n, i);
      }
    } else {
      BadWrapOverlooks(cursor, n, 0);
      forall k: nat | k < n ensures Spot(cursor, n, k) != Overlooked(cursor, n) {
        BadWrapOverlooks(cursor, n, k);
      }
      assert !Seen(cursor, n, Overlooked(cursor, n));
    }
  }

  // ---------- Giving up ----------

  predicate Exhausted(cfg: Settings, failures: Failures, chunk: Chunk, i: nat)
    requires i < |cfg.peers|
  {
    Failed(failures, cfg.peers[i], chunk) >= cfg.maxRetries
  }

  ghost predicate All(test: nat -> bool, t: nat) {
    forall k: nat :: k < t ==> test(k)
  }

  lemma AllShift(test: nat -> bool, later: nat -> bool, t: nat)
    requires t > 0 && forall k: nat :: later(k) == test(k + 1)
    ensures All(test, t) <==> test(0) && All(later, t - 1)
  {
    if test(0) && All(later, t - 1) {
      forall k: nat | k < t ensures test(k) {
        if k > 0 {
          assert later(k - 1) == test(k);
        }
      }
    }
  }

  /** What a round finds at its k-th try. */
  function Tries(cfg: Settings, failures: Failures, cursor: nat, chunk: Chunk): nat -> bool
    requires cfg.peers != []
  {
    (k: nat) => Exhausted(cfg, failures, chunk, Spot(cursor, |cfg.peers|, k))
  }

  lemma SpotShift(cursor: nat, n: nat, k: nat)
    requires n > 0
    ensures Spot((cursor + 1) % USIZE, n, k) == Spot(cursor, n, k + 1)
  {
    WrapTwice(cursor + 1, k);
  }

  lemma WrapTwice(a: nat, b: nat)
    ensures (a % USIZE + b) % USIZE == (a + b) % USIZE
  {
  }

  lemma WrapNone(cursor: nat)
    requires cursor < USIZE
    ensures cursor % USIZE == cursor
  {
  }

  /** The loop finds nobody exactly when every position it looks at is exhausted. */
  lemma {:induction false} GivesUpIff(cfg: Settings, failures: Failures, cursor: nat, chunk: Chunk, tries: nat)
    requires cfg.peers != [] && cursor < USIZE
    ensures NextPeer(cfg, failures, cursor, chunk, tries).0 == None <==> All(Tries(cfg, failures, cursor, chunk), tries)
    ensures NextPeer(cfg, failures, cursor, chunk, tries).1 < USIZE
    decreases tries
  {
    if tries > 0 {
      var next := (cursor + 1) % USIZE;
      GivesUpIff(cfg, failures, next, chunk, tries - 1);
      TriesShift(cfg, failures, cursor, chunk, tries);
      WrapNone(cursor);
    }
  }

  /** The loop takes the first position from the cursor on that is not exhausted, and leaves
      the cursor right behind it. */
  lemma {:induction false} PicksFirst(cfg: Settings, failures: Failures, cursor: nat, chunk: Chunk, tries: nat)
    returns (k: nat)
    requires cfg.peers != [] && cursor < USIZE && NextPeer(cfg, failures, cursor, chunk, tries).0.Some?
    ensures k < tries && All(Tries(cfg, failures, cursor, chunk), k)
    ensures !Exhausted(cfg, failures, chunk, Spot(cursor, |cfg.peers|, k))
    ensures NextPeer(cfg, failures, cursor, chunk, tries)
      == (Some(cfg.peers[Spot(cursor, |cfg.peers|, k)]), (cursor + k + 1) % USIZE)
    decreases tries
  {
    WrapNone(cursor);
    if !Exhausted(cfg, failures, chunk, Spot(cursor, |cfg.peers|, 0)) {
      k := 0;
    } else {
      var next := (cursor + 1) % USIZE;
      var j := PicksFirst(cfg, failures, next, chunk, tries - 1);
      k := j + 1;
      TriesShift(cfg, failures, cursor, chunk, k);
      SpotShift(cursor, |cfg.peers|, j);
      WrapTwice(cursor + 1, j + 1);
    }
  }

  lemma TriesShift(cfg: Settings, failures: Failures, cursor: nat, chunk: Chunk, k: nat)
    requires cfg.peers != [] && k > 0
    ensures All(Tries(cfg, failures, cursor, chunk), k) <==>
      Tries(cfg, failures, cursor, chunk)(0) && All(Tries(cfg, failures, (cursor + 1) % USIZE, chunk), k - 1)
  {
    var test, later := Tries(cfg, failures, cursor, chunk), Tries(cfg, failures, (cursor + 1) % USIZE, chunk);
    forall i: nat ensures later(i) == test(i + 1) {
      SpotShift(cursor, |cfg.peers|, i);
    }
    AllShift(test, later, k);
  }

  ghost predicate AllExhausted(cfg: Settings, failures: Failures, chunk: Chunk) {
    forall i: nat :: i < |cfg.peers| ==> Exhausted(cfg, failures, chunk, i)
  }

  ghost predicate GivesUpOnlyWhenExhausted(cfg: Settings, failures: Failures, cursor: nat, chunk: Chunk)
    requires cfg.peers != []
  {
    NextPeer(cfg, failures, cursor, chunk, |cfg.peers|).0 == None ==> AllExhausted(cfg, failures, chunk)
  }

  /** Every peer stands at some position that the round looks at. */
  ghost predicate EveryPeerSeen(cfg: Settings, cursor: nat)
    requires cfg.peers != []
  {
    forall p :: p in cfg.peers ==> PeerSeen(cfg, cursor, p)
  }

  ghost predicate PeerSeen(cfg: Settings, cursor: nat, p: Peer)
    requires cfg.peers != []
  {
    exists k: nat :: k < |cfg.peers| && cfg.peers[Spot(cursor, |cfg.peers|, k)] == p
  }

  lemma SeenSuffices(cfg: Settings, failures: Failures, cursor: nat, chunk: Chunk)
    requires cfg.peers != [] && cursor < USIZE && EveryPeerSeen(cfg, cursor)
    ensures GivesUpOnlyWhenExhausted(cfg, failures, cursor, chunk)
  {
    var n := |cfg.peers|;
    GivesUpIff(cfg, failures, cursor, chunk, n);
    var test := Tries(cfg, failures, cursor, chunk);
    if All(test, n) {
      forall i: nat | i < n ensures Exhausted(cfg, failures, chunk, i) {
        assert cfg.peers[i] in cfg.peers && PeerSeen(cfg, cursor, cfg.peers[i]);
        var k: nat :| k < n && cfg.peers[Spot(cursor, n, k)] == cfg.peers[i];
        assert test(k);
      }
    }
  }

  /** If a peer is overlooked, let everybody else be exhausted. */
  lemma OverlookedMissed(cfg: Settings, cursor: nat, chunk: Chunk, i: nat) returns (failures: Failures)
    requires i < |cfg.peers| && cursor < USIZE && cfg.maxRetries > 0 && !PeerSeen(cfg, cursor, cfg.peers[i])
    ensures !GivesUpOnlyWhenExhausted(cfg, failures, cursor, chunk)
  {
    var n := |cfg.peers|;
    failures := map p | p in PeerSet(cfg) - {cfg.peers[i]} :: (p, chunk) := cfg.maxRetries;
    var test := Tries(cfg, failures, cursor, chunk);
    forall k: nat | k < n ensures test(k) {
      var j := Spot(cursor, n, k);
      assert cfg.peers[j] in PeerSet(cfg) - {cfg.peers[i]};
      assert (cfg.peers[j], chunk) in failures;
    }
    GivesUpIff(cfg, failures, cursor, chunk, n);
    assert !Exhausted(cfg, failures, chunk, i);
  }

  /** `next_peer` gives up only when every peer is exhausted, whatever has failed so far, if
      and only if the round looks at every peer. */
  lemma NextPeerCompleteIff(cfg: Settings, cursor: nat, chunk: Chunk)
    requires cfg.peers != [] && cursor < USIZE && cfg.maxRetries > 0
    ensures (forall failures :: GivesUpOnlyWhenExhausted(cfg, failures, cursor, chunk)) <==> EveryPeerSeen(cfg, cursor)
  {
    if EveryPeerSeen(cfg, cursor) {
      forall failures ensures GivesUpOnlyWhenExhausted(cfg, failures, cursor, chunk) {
        SeenSuffices(cfg, failures, cursor, chunk);
      }
    } else {
      var p :| p in cfg.peers && !PeerSeen(cfg, cursor, p);
      var i :| 0 <= i < |cfg.peers| && cfg.peers[i] == p;
      var failures := OverlookedMissed(cfg, cursor, chunk, i);
    }
  }

  /** It looks at every peer if the cursor does not wrap inside the round or wraps to a
      multiple of the number of peers; for distinct peers only then. */
  lemma EveryPeerSeenIff(cfg: Settings, cursor: nat)
    requires 0 < |cfg.peers| < USIZE && cursor < USIZE
    ensures WholeRound(cursor, |cfg.peers|) ==> EveryPeerSeen(cfg, cursor)
    ensures DistinctPeers(cfg) && EveryPeerSeen(cfg, cursor) ==> WholeRound(cursor, |cfg.peers|)
  {
    var n := |cfg.peers|;
    SeesAllIff(cursor, n);
    if WholeRound(cursor, n) {
      forall p | p in cfg.peers ensures PeerSeen(cfg, cursor, p) {
        var i: nat :| i < n && cfg.peers[i] == p;
        assert Seen(cursor, n, i);
        var k: nat :| k < n && Spot(cursor, n, k) == i;
      }
    }
    if DistinctPeers(cfg) && EveryPeerSeen(cfg, cursor) {
      forall i: nat | i < n ensures Seen(cursor, n, i) {
        assert cfg.peers[i] in cfg.peers && PeerSeen(cfg, cursor, cfg.peers[i]);
        var k: nat :| k < n && cfg.peers[Spot(cursor, n, k)] == cfg.peers[i];
        assert Spot(cursor, n, k) == i;
      }
    }
  }

  ghost predicate DistinctPeers(cfg: Settings) {
    forall i, j :: 0 <= i < j < |cfg.peers| ==> cfg.peers[i] != cfg.peers[j]
  }
}
