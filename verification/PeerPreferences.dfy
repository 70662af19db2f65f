/** Whom each pass of the peer selection prefers (src/traffic_rewards.rs): the nearest, the
    most different, the least loaded, and no slot stays empty that somebody could have had. */
module PeerPreferences {
  import opened Basics
  import opened Sorting
  import opened Arithmetic
  import opened PeerSelection

  /** Lower latency, then higher uptime, then the smaller id. */
  predicate Nearer(a: PeerCandidate, b: PeerCandidate) {
    if a.latencyMs != b.latencyMs then a.latencyMs < b.latencyMs
    else if a.uptimeBps != b.uptimeBps then a.uptimeBps > b.uptimeBps
    else TextLe(a.peerId, b.peerId)
  }

  /** Fewer chosen peers of its country, then of its network, then uptime, latency and id. */
  predicate MoreDifferent(chosen: seq<PeerCandidate>, a: PeerCandidate, b: PeerCandidate) {
    if CountryCount(chosen, a.countryCode) != CountryCount(chosen, b.countryCode)
      then CountryCount(chosen, a.countryCode) < CountryCount(chosen, b.countryCode)
    else if AsnCount(chosen, a.asn) != AsnCount(chosen, b.asn) then AsnCount(chosen, a.asn) < AsnCount(chosen, b.asn)
    else if a.uptimeBps != b.uptimeBps then a.uptimeBps > b.uptimeBps
    else if a.latencyMs != b.latencyMs then a.latencyMs < b.latencyMs
    else TextLe(a.peerId, b.peerId)
  }

  /** Lower load, then higher uptime, lower latency and the smaller id. */
  predicate LessLoaded(a: PeerCandidate, b: PeerCandidate) {
    if LoadBps(a) != LoadBps(b) then LoadBps(a) < LoadBps(b)
    else if a.uptimeBps != b.uptimeBps then a.uptimeBps > b.uptimeBps
    else if a.latencyMs != b.latencyMs then a.latencyMs < b.latencyMs
    else TextLe(a.peerId, b.peerId)
  }

  /** Lower load, then nearer. */
  predicate LastResort(a: PeerCandidate, b: PeerCandidate) {
    if LoadBps(a) != LoadBps(b) then LoadBps(a) < LoadBps(b) else Nearer(a, b)
  }

  /** The load is the floored share of the capacity in use, in basis points, and full from
      the capacity on. */
  lemma LoadIsShare(c: PeerCandidate)
    requires c.capacity > 0
    ensures c.activeConnections >= c.capacity ==> LoadBps(c) == 10_000
    ensures c.activeConnections < c.capacity ==>
      LoadBps(c) * c.capacity <= c.activeConnections * 10_000 < (LoadBps(c) + 1) * c.capacity
  {
    var q := Quotient(c.activeConnections * 10_000, c.capacity);
    AddTimes(q, 1, c.capacity);
    if c.activeConnections >= c.capacity {
      CancelFactor(10_000, q, c.capacity);
    } else {
      CancelFactor(q, 10_000, c.capacity);
    }
  }

  lemma Tuple1(a: int, b: int)
    ensures TupleLe([a], [b]) <==> a <= b
  {
    assert [a][1..] == [];
  }

  lemma Tuple2(a0: int, a1: int, b0: int, b1: int)
    ensures TupleLe([a0, a1], [b0, b1]) <==> a0 < b0 || (a0 == b0 && a1 <= b1)
  {
    Tuple1(a1, b1);
    assert [a0, a1][1..] == [a1] && [b0, b1][1..] == [b1];
  }

  lemma Tuple3(a0: int, a1: int, a2: int, b0: int, b1: int, b2: int)
    ensures TupleLe([a0, a1, a2], [b0, b1, b2]) <==> a0 < b0 || (a0 == b0 && (a1 < b1 || (a1 == b1 && a2 <= b2)))
  {
    Tuple2(a1, a2, b1, b2);
    assert [a0, a1, a2][1..] == [a1, a2] && [b0, b1, b2][1..] == [b1, b2];
  }

  lemma Tuple4(a0: int, a1: int, a2: int, a3: int, b0: int, b1: int, b2: int, b3: int)
    ensures TupleLe([a0, a1, a2, a3], [b0, b1, b2, b3]) <==>
      a0 < b0 || (a0 == b0 && TupleLe([a1, a2, a3], [b1, b2, b3]))
    ensures TupleLe([a1, a2, a3], [b1, b2, b3]) <==> a1 < b1 || (a1 == b1 && (a2 < b2 || (a2 == b2 && a3 <= b3)))
  {
    Tuple3(a1, a2, a3, b1, b2, b3);
    assert [a0, a1, a2, a3][1..] == [a1, a2, a3] && [b0, b1, b2, b3][1..] == [b1, b2, b3];
  }

  lemma NearbyMeans(a: PeerCandidate, b: PeerCandidate)
    ensures By(NearbyRank())(a, b) <==> Nearer(a, b)
  {
    Tuple2(a.latencyMs, -(a.uptimeBps as int), b.latencyMs, -(b.uptimeBps as int));
    assert NearbyRank()(a)[0] == a.latencyMs && NearbyRank()(a)[1] == -(a.uptimeBps as int);
    assert NearbyRank()(b)[0] == b.latencyMs && NearbyRank()(b)[1] == -(b.uptimeBps as int);
  }

  lemma LowLoadMeans(a: PeerCandidate, b: PeerCandidate)
    ensures By(LowLoadRank())(a, b) <==> LessLoaded(a, b)
  {
    Tuple3(LoadBps(a), -(a.uptimeBps as int), a.latencyMs, LoadBps(b), -(b.uptimeBps as int), b.latencyMs);
    var x, y := LowLoadRank()(a), LowLoadRank()(b);
    assert x[0] == LoadBps(a) && x[1] == -(a.uptimeBps as int) && x[2] == a.latencyMs;
    assert y[0] == LoadBps(b) && y[1] == -(b.uptimeBps as int) && y[2] == b.latencyMs;
  }

  lemma FallbackMeans(a: PeerCandidate, b: PeerCandidate)
    ensures By(FallbackRank())(a, b) <==> LastResort(a, b)
  {
    Tuple3(LoadBps(a), a.latencyMs, -(a.uptimeBps as int), LoadBps(b), b.latencyMs, -(b.uptimeBps as int));
    var x, y := FallbackRank()(a), FallbackRank()(b);
    assert x[0] == LoadBps(a) && x[1] == a.latencyMs && x[2] == -(a.uptimeBps as int);
    assert y[0] == LoadBps(b) && y[1] == b.latencyMs && y[2] == -(b.uptimeBps as int);
  }

  lemma DiverseMeans(chosen: seq<PeerCandidate>, a: PeerCandidate, b: PeerCandidate)
    ensures By(DiverseRank(chosen))(a, b) <==> MoreDifferent(chosen, a, b)
  {
    var x, y := DiverseRank(chosen)(a), DiverseRank(chosen)(b);
    assert x == [CountryCount(chosen, a.countryCode), AsnCount(chosen, a.asn), -(a.uptimeBps as int), a.latencyMs];
    assert y == [CountryCount(chosen, b.countryCode), AsnCount(chosen, b.asn), -(b.uptimeBps as int), b.latencyMs];
    Tuple4(x[0], x[1], x[2], x[3], y[0], y[1], y[2], y[3]);
    assert x == [x[0], x[1], x[2], x[3]] && y == [y[0], y[1], y[2], y[3]];
  }

  // ---------- No empty slots ----------

  /** A pass that falls short leaves nobody it could still take. */
  lemma {:induction false} FillShort(p: TrafficPolicy, candidates: seq<PeerCandidate>, target: nat,
                                     selected: seq<PeerCandidate>, relaxed: bool, c: PeerCandidate)
    requires c in candidates && |Fill(p, candidates, target, selected, relaxed)| < target
    ensures !Admissible(p, Fill(p, candidates, target, selected, relaxed), c, relaxed)
    decreases |candidates|
  {
    if |selected| < target {
      var d, rest := candidates[0], candidates[1..];
      var next := if Admissible(p, selected, d, relaxed) then selected + [d] else selected;
      if c == d {
        if Admissible(p, selected, d, relaxed) {
          assert d in next;
        }
        TurnTaken(p, rest, target, next, relaxed, c);
      } else {
        assert c in rest;
        FillShort(p, rest, target, next, relaxed, c);
      }
    }
  }

  lemma PassShort(p: TrafficPolicy, rank: Rank, pool: seq<PeerCandidate>, count: nat, selected: seq<PeerCandidate>,
                  relaxed: bool, c: PeerCandidate)
    requires c in pool && |Pass(p, rank, pool, count, selected, relaxed)| < |selected| + count
    ensures !Admissible(p, Pass(p, rank, pool, count, selected, relaxed), c, relaxed)
  {
    RankedMembers(rank, pool);
    FillShort(p, Sort(By(rank), pool), |selected| + count, selected, relaxed, c);
  }

  // ---------- The selection ----------

  /** Why a pass cannot take a candidate: its id is taken, its uptime too low, the bootstrap
      places are full, or, in a strict pass, those of its country or network. */
  predicate Excluded(p: TrafficPolicy, chosen: seq<PeerCandidate>, c: PeerCandidate, strict: bool) {
    || (exists d :: d in chosen && d.peerId == c.peerId)
    || c.uptimeBps < p.minimumUptimeBps
    || (c.isBootstrap && BootstrapCount(chosen) >= p.maxBootstrapConnections)
    || (strict && CountryCount(chosen, c.countryCode) >= p.maxPerCountry)
    || (strict && AsnCount(chosen, c.asn) >= p.maxPerAsn)
  }

  /** The passes behind a selection, each the beginning of the next. */
  ghost predicate Stages(p: TrafficPolicy, pool: seq<PeerCandidate>, near: seq<PeerCandidate>,
                         different: seq<PeerCandidate>, idle: seq<PeerCandidate>, all: seq<PeerCandidate>) {
    && near <= different <= idle <= all && idle == StrictPasses(p, pool) && all == Selection(p, pool)
    && |near| <= p.nearbySlots && |different| <= |near| + p.diversitySlots && |idle| <= |different| + p.lowLoadSlots
  }

  /** A candidate c envies no peer of the selection: whoever a pass took instead was preferred
      by that pass, or c was excluded there; and a pass left a slot empty only if c was
      excluded. */
  ghost predicate NoEnvy(p: TrafficPolicy, near: seq<PeerCandidate>, different: seq<PeerCandidate>,
                         idle: seq<PeerCandidate>, all: seq<PeerCandidate>, c: PeerCandidate) {
    && (forall d :: d in near ==> Nearer(d, c) || Excluded(p, near, c, true))
    && (forall d :: d in different && d !in near ==> MoreDifferent(near, d, c) || Excluded(p, different, c, true))
    && (forall d :: d in idle && d !in different ==> LessLoaded(d, c) || Excluded(p, idle, c, true))
    && (forall d :: d in all && d !in idle ==> LastResort(d, c) || Excluded(p, all, c, false))
    && (|near| < p.nearbySlots ==> Excluded(p, near, c, true))
    && (|different| < |near| + p.diversitySlots ==> Excluded(p, different, c, true))
    && (|idle| < |different| + p.lowLoadSlots ==> Excluded(p, idle, c, true))
    && (|all| < p.targetConnections ==> Excluded(p, all, c, false))
  }

  lemma NearPass(p: TrafficPolicy, pool: seq<PeerCandidate>, c: PeerCandidate)
    requires c in pool
    ensures var near := Pass(p, NearbyRank(), pool, p.nearbySlots, [], false);
      && (forall d :: d in near ==> Nearer(d, c) || !Admissible(p, near, c, false))
      && (|near| < p.nearbySlots ==> !Admissible(p, near, c, false))
  {
    var none: seq<PeerCandidate> := [];
    var near := Pass(p, NearbyRank(), pool, p.nearbySlots, none, false);
    forall d | d in near ensures Nearer(d, c) || !Admissible(p, near, c, false) {
      PassNoEnvy(p, NearbyRank(), pool, p.nearbySlots, none, false, c, d);
      NearbyMeans(d, c);
    }
    if |near| < p.nearbySlots {
      PassShort(p, NearbyRank(), pool, p.nearbySlots, none, false, c);
    }
  }

  lemma DifferentPass(p: TrafficPolicy, pool: seq<PeerCandidate>, near: seq<PeerCandidate>, c: PeerCandidate)
    requires c in pool
    ensures var different := Pass(p, DiverseRank(near), pool, p.diversitySlots, near, false);
      && (forall d :: d in different && d !in near ==>
            MoreDifferent(near, d, c) || !Admissible(p, different, c, false))
      && (|different| < |near| + p.diversitySlots ==> !Admissible(p, different, c, false))
  {
    var different := Pass(p, DiverseRank(near), pool, p.diversitySlots, near, false);
    forall d | d in different && d !in near ensures MoreDifferent(near, d, c) || !Admissible(p, different, c, false) {
      PassNoEnvy(p, DiverseRank(near), pool, p.diversitySlots, near, false, c, d);
      DiverseMeans(near, d, c);
    }
    if |different| < |near| + p.diversitySlots {
      PassShort(p, DiverseRank(near), pool, p.diversitySlots, near, false, c);
    }
  }

  lemma IdlePass(p: TrafficPolicy, pool: seq<PeerCandidate>, different: seq<PeerCandidate>, c: PeerCandidate)
    requires c in pool
    ensures var idle := Pass(p, LowLoadRank(), pool, p.lowLoadSlots, different, false);
      && (forall d :: d in idle && d !in different ==> LessLoaded(d, c) || !Admissible(p, idle, c, false))
      && (|idle| < |different| + p.lowLoadSlots ==> !Admissible(p, idle, c, false))
  {
    var idle := Pass(p, LowLoadRank(), pool, p.lowLoadSlots, different, false);
    forall d | d in idle && d !in different ensures LessLoaded(d, c) || !Admissible(p, idle, c, false) {
      PassNoEnvy(p, LowLoadRank(), pool, p.lowLoadSlots, different, false, c, d);
      LowLoadMeans(d, c);
    }
    if |idle| < |different| + p.lowLoadSlots {
      PassShort(p, LowLoadRank(), pool, p.lowLoadSlots, different, false, c);
    }
  }

  lemma FallbackPass(p: TrafficPolicy, pool: seq<PeerCandidate>, idle: seq<PeerCandidate>, count: nat, c: PeerCandidate)
    requires c in pool
    ensures var all := Pass(p, FallbackRank(), pool, count, idle, true);
      forall d :: d in all && d !in idle ==> LastResort(d, c) || Barred(p, all, c)
  {
    var all := Pass(p, FallbackRank(), pool, count, idle, true);
    forall d | d in all && d !in idle ensures LastResort(d, c) || Barred(p, all, c) {
      PassNoEnvy(p, FallbackRank(), pool, count, idle, true, c, d);
      FallbackMeans(d, c);
    }
  }

  /** Every selection comes from four passes in which no candidate of the pool has reason for
      envy. */
  lemma SelectionNoEnvy(p: TrafficPolicy, pool: seq<PeerCandidate>)
    returns (near: seq<PeerCandidate>, different: seq<PeerCandidate>, idle: seq<PeerCandidate>,
             all: seq<PeerCandidate>)
    requires PolicyOk(p)
    ensures Stages(p, pool, near, different, idle, all)
    ensures forall c :: c in pool ==> NoEnvy(p, near, different, idle, all, c)
  {
    var none: seq<PeerCandidate> := [];
    near := Pass(p, NearbyRank(), pool, p.nearbySlots, none, false);
    PassKeeps(p, NearbyRank(), pool, p.nearbySlots, none, false);
    different := Pass(p, DiverseRank(near), pool, p.diversitySlots, near, false);
    PassKeeps(p, DiverseRank(near), pool, p.diversitySlots, near, false);
    idle := Pass(p, LowLoadRank(), pool, p.lowLoadSlots, different, false);
    PassKeeps(p, LowLoadRank(), pool, p.lowLoadSlots, different, false);
    all := Pass(p, FallbackRank(), pool, p.targetConnections - |idle|, idle, true);
    LastPass(p, pool, idle);
    assert all == Selection(p, pool);
    forall c | c in pool ensures NoEnvy(p, near, different, idle, all, c) {
      NobodyEnvies(p, pool, near, different, idle, p.targetConnections - |idle|, all, c);
    }
  }

  lemma NobodyEnvies(p: TrafficPolicy, pool: seq<PeerCandidate>, near: seq<PeerCandidate>,
                     different: seq<PeerCandidate>, idle: seq<PeerCandidate>, count: nat, all: seq<PeerCandidate>,
                     c: PeerCandidate)
    requires c in pool && near == Pass(p, NearbyRank(), pool, p.nearbySlots, [], false)
    requires different == Pass(p, DiverseRank(near), pool, p.diversitySlots, near, false)
    requires idle == Pass(p, LowLoadRank(), pool, p.lowLoadSlots, different, false)
    requires all == Pass(p, FallbackRank(), pool, count, idle, true)
    requires |all| < p.targetConnections ==> Barred(p, all, c)
    ensures NoEnvy(p, near, different, idle, all, c)
  {
    NearPass(p, pool, c);
    DifferentPass(p, pool, near, c);
    IdlePass(p, pool, different, c);
    FallbackPass(p, pool, idle, count, c);
  }
}
