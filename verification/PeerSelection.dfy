/** Balanced peer selection (src/traffic_rewards.rs, `select_balanced_peers`): three ranked
    passes under diversity caps, then a relaxed pass for the slots left over. */
module PeerSelection {
  import opened Basics
  import opened Sorting
  import opened Arithmetic
  import opened Events

  const BPS_DENOMINATOR: nat := 10_000

  datatype TrafficPolicy = TrafficPolicy(
    targetConnections: nat, nearbySlots: nat, diversitySlots: nat, lowLoadSlots: nat,
    maxPerCountry: nat, maxPerAsn: nat, maxBootstrapConnections: nat, minimumUptimeBps: nat)

  predicate PolicyOk(p: TrafficPolicy) {
    && p.targetConnections > 0 && p.nearbySlots + p.diversitySlots + p.lowLoadSlots == p.targetConnections
    && p.maxPerCountry > 0 && p.maxPerAsn > 0
    && p.maxBootstrapConnections <= p.targetConnections
    && p.minimumUptimeBps <= BPS_DENOMINATOR
  }

  datatype PeerCandidate = PeerCandidate(
    peerId: string, countryCode: string, asn: nat, latencyMs: nat, uptimeBps: nat,
    capacity: nat, activeConnections: nat, isBootstrap: bool)

  function LoadBps(c: PeerCandidate): nat {
    if c.capacity == 0 then BPS_DENOMINATOR
    else Min(Quotient(c.activeConnections * BPS_DENOMINATOR, c.capacity), BPS_DENOMINATOR)
  }

  // ---------- Candidates ----------

  /** Nothing is left of the text after trimming. */
  predicate BlankText(text: string) {
    forall i :: 0 <= i < |text| ==> Blank(text[i])
  }

  /** Nameless candidates and those without capacity are ignored. */
  predicate Usable(c: PeerCandidate) {
    !BlankText(c.peerId) && !BlankText(c.countryCode) && c.capacity != 0
  }

  predicate KnownId(peers: seq<PeerCandidate>, id: string) {
    exists p :: p in peers && p.peerId == id
  }

  /** The first usable candidate of every id. */
  function Unique(candidates: seq<PeerCandidate>): seq<PeerCandidate> {
    if candidates == [] then []
    else
      var front, last := Unique(candidates[..|candidates| - 1]), candidates[|candidates| - 1];
      if Usable(last) && !KnownId(front, last.peerId) then front + [last] else front
  }

  // ---------- Ranking ----------

  /** Lexicographic order of the key tuples. */
  predicate TupleLe(a: seq<int>, b: seq<int>) {
    if a == [] then true
    else if b == [] then false
    else if a[0] != b[0] then a[0] < b[0]
    else TupleLe(a[1..], b[1..])
  }

  type Rank = PeerCandidate -> seq<int>

  /** Candidates by rank, ties by peer id. */
  function By(rank: Rank): (PeerCandidate, PeerCandidate) -> bool {
    (a: PeerCandidate, b: PeerCandidate) => if rank(a) == rank(b) then TextLe(a.peerId, b.peerId)
      else TupleLe(rank(a), rank(b))
  }

  function NearbyRank(): Rank { (c: PeerCandidate) => [c.latencyMs, -(c.uptimeBps as int)] }

  function DiverseRank(selected: seq<PeerCandidate>): Rank {
    (c: PeerCandidate) => [CountryCount(selected, c.countryCode), AsnCount(selected, c.asn), -(c.uptimeBps as int),
                           c.latencyMs]
  }

  function LowLoadRank(): Rank { (c: PeerCandidate) => [LoadBps(c), -(c.uptimeBps as int), c.latencyMs] }

  function FallbackRank(): Rank { (c: PeerCandidate) => [LoadBps(c), c.latencyMs, -(c.uptimeBps as int)] }

  lemma {:induction false} TupleTotal(a: seq<int>, b: seq<int>)
    ensures TupleLe(a, b) || TupleLe(b, a)
    ensures TupleLe(a, b) && TupleLe(b, a) ==> a == b
  {
    if a != [] && b != [] && a[0] == b[0] {
      TupleTotal(a[1..], b[1..]);
      assert a == [a[0]] + a[1..] && b == [b[0]] + b[1..];
    }
  }

  lemma {:induction false} TupleTransitive(a: seq<int>, b: seq<int>, c: seq<int>)
    requires TupleLe(a, b) && TupleLe(b, c)
    ensures TupleLe(a, c)
  {
    if a != [] && a[0] == b[0] == c[0] {
      TupleTransitive(a[1..], b[1..], c[1..]);
    }
  }

  /** Every ranking is a total order up to the peer id. */
  lemma RankOrder(rank: Rank)
    ensures TotalPreorder(By(rank))
    ensures forall a, b :: By(rank)(a, b) && By(rank)(b, a) ==> a.peerId == b.peerId
  {
    TextOrder();
    var le := By(rank);
    forall a, b ensures (le(a, b) || le(b, a)) && (le(a, b) && le(b, a) ==> a.peerId == b.peerId) {
      TupleTotal(rank(a), rank(b));
    }
    forall a, b, c | le(a, b) && le(b, c) ensures le(a, c) {
      RankTransitive(rank, a, b, c);
    }
  }

  lemma RankTransitive(rank: Rank, a: PeerCandidate, b: PeerCandidate, c: PeerCandidate)
    requires By(rank)(a, b) && By(rank)(b, c)
    ensures By(rank)(a, c)
  {
    TupleTotal(rank(a), rank(b));
    TupleTotal(rank(b), rank(c));
    if rank(a) == rank(b) == rank(c) {
      TextLeTransitive(a.peerId, b.peerId, c.peerId);
    } else {
      TupleTransitive(rank(a), rank(b), rank(c));
    }
  }

  lemma RankedMembers(rank: Rank, pool: seq<PeerCandidate>)
    ensures forall c :: c in Sort(By(rank), pool) <==> c in pool
  {
    RankOrder(rank);
    SortFacts(By(rank), pool);
  }

  // ---------- Filling slots ----------

  function CountryCount(peers: seq<PeerCandidate>, country: string): nat {
    |Filter((p: PeerCandidate) => p.countryCode == country, peers)|
  }

  function AsnCount(peers: seq<PeerCandidate>, asn: nat): nat {
    |Filter((p: PeerCandidate) => p.asn == asn, peers)|
  }

  function BootstrapCount(peers: seq<PeerCandidate>): nat {
    |Filter((p: PeerCandidate) => p.isBootstrap, peers)|
  }

  /** Reasons that hold in every pass. */
  predicate Barred(p: TrafficPolicy, selected: seq<PeerCandidate>, c: PeerCandidate) {
    || KnownId(selected, c.peerId)
    || c.uptimeBps < p.minimumUptimeBps
    || (c.isBootstrap && BootstrapCount(selected) >= p.maxBootstrapConnections)
  }

  predicate OverCap(p: TrafficPolicy, selected: seq<PeerCandidate>, c: PeerCandidate) {
    CountryCount(selected, c.countryCode) >= p.maxPerCountry || AsnCount(selected, c.asn) >= p.maxPerAsn
  }

  predicate Admissible(p: TrafficPolicy, selected: seq<PeerCandidate>, c: PeerCandidate, relaxed: bool) {
    !Barred(p, selected, c) && (relaxed || !OverCap(p, selected, c))
  }

  function Fill(p: TrafficPolicy, candidates: seq<PeerCandidate>, target: nat, selected: seq<PeerCandidate>,
                relaxed: bool): seq<PeerCandidate>
    decreases |candidates|
  {
    if candidates == [] || |selected| >= target then selected
    else if Admissible(p, selected, candidates[0], relaxed)
      then Fill(p, candidates[1..], target, selected + [candidates[0]], relaxed)
    else Fill(p, candidates[1..], target, selected, relaxed)
  }

  method FillSlots(p: TrafficPolicy, candidates: seq<PeerCandidate>, count: nat, selected: seq<PeerCandidate>,
                   relaxed: bool) returns (result: seq<PeerCandidate>)
    ensures result == Fill(p, candidates, |selected| + count, selected, relaxed)
  {
    var target := |selected| + count;
    result := selected;
    var i := 0;
    assert candidates[0..] == candidates;
    while i < |candidates| && |result| < target
      invariant 0 <= i <= |candidates|
      invariant Fill(p, candidates, target, selected, relaxed) == Fill(p, candidates[i..], target, result, relaxed)
    {
      var c := candidates[i];
      assert candidates[i..][0] == c && candidates[i..][1..] == candidates[i + 1..];
      i := i + 1;
      if KnownId(result, c.peerId) || c.uptimeBps < p.minimumUptimeBps { continue; }
      if c.isBootstrap && BootstrapCount(result) >= p.maxBootstrapConnections { continue; }
      if !relaxed && (CountryCount(result, c.countryCode) >= p.maxPerCountry
                      || AsnCount(result, c.asn) >= p.maxPerAsn) { continue; }
      result := result + [c];
    }
  }

  /** One ranked pass for a number of further slots. */
  function Pass(p: TrafficPolicy, rank: Rank, pool: seq<PeerCandidate>, count: nat, selected: seq<PeerCandidate>,
                relaxed: bool): seq<PeerCandidate> {
    Fill(p, Sort(By(rank), pool), |selected| + count, selected, relaxed)
  }

  /** The three passes under the caps. */
  function StrictPasses(p: TrafficPolicy, pool: seq<PeerCandidate>): seq<PeerCandidate> {
    var near := Pass(p, NearbyRank(), pool, p.nearbySlots, [], false);
    var diverse := Pass(p, DiverseRank(near), pool, p.diversitySlots, near, false);
    Pass(p, LowLoadRank(), pool, p.lowLoadSlots, diverse, false)
  }

  function Selection(p: TrafficPolicy, pool: seq<PeerCandidate>): seq<PeerCandidate> {
    var strict := StrictPasses(p, pool);
    var all := Pass(p, FallbackRank(), pool, Max(p.targetConnections - |strict|, 0), strict, true);
    all[..Min(p.targetConnections, |all|)]
  }

  /** `select_balanced_peers`; `order` is how the hash map happens to list its values, which
      makes no difference. */
  method SelectBalancedPeers(p: TrafficPolicy, candidates: seq<PeerCandidate>,
                             order: seq<PeerCandidate> -> seq<PeerCandidate>)
    returns (r: Option<seq<PeerCandidate>>)
    requires forall s :: multiset(order(s)) == multiset(s)
    ensures r.Some? <==> PolicyOk(p)
    ensures r.Some? ==> r.value == Selection(p, Unique(candidates))
  {
    if !PolicyOk(p) {
      return None;
    }
    var unique: seq<PeerCandidate> := [];
    var i := 0;
    while i < |candidates|
      invariant 0 <= i <= |candidates| && unique == Unique(candidates[..i])
    {
      assert candidates[..i + 1][..i] == candidates[..i];
      if Usable(candidates[i]) && !KnownId(unique, candidates[i].peerId) {
        unique := unique + [candidates[i]];
      }
      i := i + 1;
    }
    assert candidates[..i] == candidates;
    UniqueDistinct(candidates);
    SelectionIgnoresListing(p, unique, order(unique));
    var selected := SelectFrom(p, order(unique));
    r := Some(selected);
  }

  method RankAndFill(p: TrafficPolicy, rank: Rank, pool: seq<PeerCandidate>, count: nat, selected: seq<PeerCandidate>,
                     relaxed: bool) returns (result: seq<PeerCandidate>)
    ensures result == Pass(p, rank, pool, count, selected, relaxed)
  {
    result := FillSlots(p, Sort(By(rank), pool), count, selected, relaxed);
  }

  method SelectFrom(p: TrafficPolicy, pool: seq<PeerCandidate>) returns (selected: seq<PeerCandidate>)
    ensures selected == Selection(p, pool)
  {
    var near := RankAndFill(p, NearbyRank(), pool, p.nearbySlots, [], false);
    var diverse := RankAndFill(p, DiverseRank(near), pool, p.diversitySlots, near, false);
    var strict := RankAndFill(p, LowLoadRank(), pool, p.lowLoadSlots, diverse, false);
    assert strict == StrictPasses(p, pool);
    var all := RankAndFill(p, FallbackRank(), pool, Max(p.targetConnections - |strict|, 0), strict, true);
    selected := all[..Min(p.targetConnections, |all|)];
  }

  // ---------- What a selection guarantees ----------

  lemma {:induction false} FilterConcat<T>(f: T -> bool, a: seq<T>, b: seq<T>)
    ensures Filter(f, a + b) == Filter(f, a) + Filter(f, b)
  {
    if a == [] {
      assert a + b == b;
    } else {
      var front := if f(a[0]) then [a[0]] else [];
      assert a + b == [a[0]] + (a[1..] + b);
      FilterCons(f, a[0], a[1..] + b);
      FilterConcat(f, a[1..], b);
      assert front + (Filter(f, a[1..]) + Filter(f, b)) == (front + Filter(f, a[1..])) + Filter(f, b);
    }
  }

  lemma FilterSnoc<T>(f: T -> bool, s: seq<T>, x: T)
    ensures |Filter(f, s + [x])| == |Filter(f, s)| + if f(x) then 1 else 0
  {
    FilterConcat(f, s, [x]);
    assert [x][1..] == [];
  }

  /** Distinct ids, enough uptime, and the bootstrap cap. */
  ghost predicate Fair(p: TrafficPolicy, pool: seq<PeerCandidate>, selected: seq<PeerCandidate>) {
    && (forall i, j :: 0 <= i < j < |selected| ==> selected[i].peerId != selected[j].peerId)
    && (forall c :: c in selected ==> c in pool && c.uptimeBps >= p.minimumUptimeBps)
    && BootstrapCount(selected) <= p.maxBootstrapConnections
  }

  ghost predicate Capped(p: TrafficPolicy, selected: seq<PeerCandidate>) {
    && (forall country :: CountryCount(selected, country) <= p.maxPerCountry)
    && (forall asn :: AsnCount(selected, asn) <= p.maxPerAsn)
  }

  lemma AdmitKeeps(p: TrafficPolicy, pool: seq<PeerCandidate>, selected: seq<PeerCandidate>, c: PeerCandidate,
                   relaxed: bool)
    requires Fair(p, pool, selected) && c in pool && Admissible(p, selected, c, relaxed)
    ensures Fair(p, pool, selected + [c])
  {
    FilterSnoc((q: PeerCandidate) => q.isBootstrap, selected, c);
    forall i | 0 <= i < |selected| ensures selected[i].peerId != c.peerId {
      assert selected[i] in selected;
    }
  }

  lemma AdmitCapped(p: TrafficPolicy, selected: seq<PeerCandidate>, c: PeerCandidate)
    requires Capped(p, selected) && Admissible(p, selected, c, false)
    ensures Capped(p, selected + [c])
  {
    forall country ensures CountryCount(selected + [c], country) <= p.maxPerCountry {
      assert CountryCount(selected, country) <= p.maxPerCountry;
      FilterSnoc((q: PeerCandidate) => q.countryCode == country, selected, c);
    }
    forall asn: nat ensures AsnCount(selected + [c], asn) <= p.maxPerAsn {
      assert AsnCount(selected, asn) <= p.maxPerAsn;
      FilterSnoc((q: PeerCandidate) => q.asn == asn, selected, c);
    }
  }

  lemma {:induction false} FillKeeps(p: TrafficPolicy, pool: seq<PeerCandidate>, candidates: seq<PeerCandidate>,
                                     target: nat, selected: seq<PeerCandidate>, relaxed: bool)
    requires Fair(p, pool, selected) && forall c :: c in candidates ==> c in pool
    ensures Fair(p, pool, Fill(p, candidates, target, selected, relaxed))
    ensures !relaxed && Capped(p, selected) ==> Capped(p, Fill(p, candidates, target, selected, relaxed))
    ensures |Fill(p, candidates, target, selected, relaxed)| <= Max(target, |selected|)
    ensures selected <= Fill(p, candidates, target, selected, relaxed)
    decreases |candidates|
  {
    if candidates != [] && |selected| < target {
      var c := candidates[0];
      assert forall d :: d in candidates[1..] ==> d in candidates;
      if Admissible(p, selected, c, relaxed) {
        AdmitKeeps(p, pool, selected, c, relaxed);
        if !relaxed && Capped(p, selected) {
          AdmitCapped(p, selected, c);
        }
        FillKeeps(p, pool, candidates[1..], target, selected + [c], relaxed);
      } else {
        FillKeeps(p, pool, candidates[1..], target, selected, relaxed);
      }
    }
  }

  lemma BarredStays(p: TrafficPolicy, selected: seq<PeerCandidate>, c: PeerCandidate, d: PeerCandidate)
    requires Barred(p, selected, c)
    ensures Barred(p, selected + [d], c)
  {
    FilterSnoc((q: PeerCandidate) => q.isBootstrap, selected, d);
    if KnownId(selected, c.peerId) {
      var q :| q in selected && q.peerId == c.peerId;
      assert q in selected + [d];
    }
  }

  lemma {:induction false} BarredForGood(p: TrafficPolicy, candidates: seq<PeerCandidate>, target: nat,
                                         selected: seq<PeerCandidate>, relaxed: bool, c: PeerCandidate)
    requires Barred(p, selected, c)
    ensures Barred(p, Fill(p, candidates, target, selected, relaxed), c)
    decreases |candidates|
  {
    if candidates != [] && |selected| < target {
      if Admissible(p, selected, candidates[0], relaxed) {
        BarredStays(p, selected, c, candidates[0]);
        BarredForGood(p, candidates[1..], target, selected + [candidates[0]], relaxed, c);
      } else {
        BarredForGood(p, candidates[1..], target, selected, relaxed, c);
      }
    }
  }

  /** A relaxed pass that falls short leaves no candidate it could still take. */
  lemma {:induction false} ShortMeansBarred(p: TrafficPolicy, candidates: seq<PeerCandidate>, target: nat,
                                            selected: seq<PeerCandidate>, c: PeerCandidate)
    requires c in candidates && |Fill(p, candidates, target, selected, true)| < target
    ensures Barred(p, Fill(p, candidates, target, selected, true), c)
    decreases |candidates|
  {
    FillGrows(p, candidates, target, selected);
    var d, rest := candidates[0], candidates[1..];
    var next := if Barred(p, selected, d) then selected else selected + [d];
    if c == d {
      if !Barred(p, selected, d) {
        assert d in next;
      }
      BarredForGood(p, rest, target, next, true, c);
    } else {
      assert c in rest;
      ShortMeansBarred(p, rest, target, next, c);
    }
  }

  lemma OverCapStays(p: TrafficPolicy, selected: seq<PeerCandidate>, c: PeerCandidate, d: PeerCandidate)
    requires OverCap(p, selected, c)
    ensures OverCap(p, selected + [d], c)
  {
    FilterSnoc((q: PeerCandidate) => q.countryCode == c.countryCode, selected, d);
    FilterSnoc((q: PeerCandidate) => q.asn == c.asn, selected, d);
  }

  lemma {:induction false} OverCapForGood(p: TrafficPolicy, candidates: seq<PeerCandidate>, target: nat,
                                          selected: seq<PeerCandidate>, relaxed: bool, c: PeerCandidate)
    requires OverCap(p, selected, c)
    ensures OverCap(p, Fill(p, candidates, target, selected, relaxed), c)
    decreases |candidates|
  {
    if candidates != [] && |selected| < target {
      if Admissible(p, selected, candidates[0], relaxed) {
        OverCapStays(p, selected, c, candidates[0]);
        OverCapForGood(p, candidates[1..], target, selected + [candidates[0]], relaxed, c);
      } else {
        OverCapForGood(p, candidates[1..], target, selected, relaxed, c);
      }
    }
  }

  /** A candidate that has had its turn is selected or can no longer be. */
  lemma TurnTaken(p: TrafficPolicy, candidates: seq<PeerCandidate>, target: nat, selected: seq<PeerCandidate>,
                  relaxed: bool, c: PeerCandidate)
    requires KnownId(selected, c.peerId) || !Admissible(p, selected, c, relaxed)
    ensures !Admissible(p, Fill(p, candidates, target, selected, relaxed), c, relaxed)
  {
    if Barred(p, selected, c) {
      BarredForGood(p, candidates, target, selected, relaxed, c);
    } else {
      OverCapForGood(p, candidates, target, selected, relaxed, c);
    }
  }

  lemma {:induction false} FillNoEnvy(p: TrafficPolicy, le: (PeerCandidate, PeerCandidate) -> bool,
                                      candidates: seq<PeerCandidate>, target: nat, selected: seq<PeerCandidate>,
                                      relaxed: bool, c: PeerCandidate, d: PeerCandidate)
    requires Sorted(le, candidates) && c in candidates
    requires d in Fill(p, candidates, target, selected, relaxed) && d !in selected
    ensures le(d, c) || !Admissible(p, Fill(p, candidates, target, selected, relaxed), c, relaxed)
    decreases |candidates|
  {
    var x, rest := candidates[0], candidates[1..];
    var next := if Admissible(p, selected, x, relaxed) then selected + [x] else selected;
    if x == c {
      if Admissible(p, selected, x, relaxed) {
        assert x in next;
      }
      TurnTaken(p, rest, target, next, relaxed, c);
    } else {
      assert c in rest;
      var i :| 0 <= i < |rest| && rest[i] == c;
      assert le(x, candidates[i + 1]);
      if d != x {
        FillNoEnvy(p, le, rest, target, next, relaxed, c, d);
      }
    }
  }

  /** No pass takes a peer over a better ranked one, unless that one is barred or over a cap. */
  lemma PassNoEnvy(p: TrafficPolicy, rank: Rank, pool: seq<PeerCandidate>, count: nat, selected: seq<PeerCandidate>,
                   relaxed: bool, c: PeerCandidate, d: PeerCandidate)
    requires c in pool && d in Pass(p, rank, pool, count, selected, relaxed) && d !in selected
    ensures By(rank)(d, c) || !Admissible(p, Pass(p, rank, pool, count, selected, relaxed), c, relaxed)
  {
    RankedMembers(rank, pool);
    RankedSorted(rank, pool);
    FillNoEnvy(p, By(rank), Sort(By(rank), pool), |selected| + count, selected, relaxed, c, d);
  }

  lemma RankedSorted(rank: Rank, pool: seq<PeerCandidate>)
    ensures Sorted(By(rank), Sort(By(rank), pool))
  {
    RankOrder(rank);
    SortFacts(By(rank), pool);
  }

  lemma {:induction false} FillGrows(p: TrafficPolicy, candidates: seq<PeerCandidate>, target: nat,
                                     selected: seq<PeerCandidate>)
    ensures |Fill(p, candidates, target, selected, true)| >= |selected|
    decreases |candidates|
  {
    if candidates != [] && |selected| < target {
      FillGrows(p, candidates[1..], target, if Barred(p, selected, candidates[0]) then selected
                else selected + [candidates[0]]);
    }
  }

  lemma PassKeeps(p: TrafficPolicy, rank: Rank, pool: seq<PeerCandidate>, count: nat, selected: seq<PeerCandidate>,
                  relaxed: bool)
    requires Fair(p, pool, selected)
    ensures Fair(p, pool, Pass(p, rank, pool, count, selected, relaxed))
    ensures !relaxed && Capped(p, selected) ==> Capped(p, Pass(p, rank, pool, count, selected, relaxed))
    ensures |Pass(p, rank, pool, count, selected, relaxed)| <= |selected| + count
    ensures selected <= Pass(p, rank, pool, count, selected, relaxed)
  {
    RankedMembers(rank, pool);
    FillKeeps(p, pool, Sort(By(rank), pool), |selected| + count, selected, relaxed);
  }

  lemma StrictKeeps(p: TrafficPolicy, pool: seq<PeerCandidate>)
    requires PolicyOk(p)
    ensures Fair(p, pool, StrictPasses(p, pool)) && Capped(p, StrictPasses(p, pool))
    ensures |StrictPasses(p, pool)| <= p.targetConnections
  {
    var none: seq<PeerCandidate> := [];
    var near := Pass(p, NearbyRank(), pool, p.nearbySlots, none, false);
    PassKeeps(p, NearbyRank(), pool, p.nearbySlots, none, false);
    var diverse := Pass(p, DiverseRank(near), pool, p.diversitySlots, near, false);
    PassKeeps(p, DiverseRank(near), pool, p.diversitySlots, near, false);
    PassKeeps(p, LowLoadRank(), pool, p.lowLoadSlots, diverse, false);
  }

  /** The selection has distinct peers with enough uptime within the bootstrap cap, at most
      the target many, and fewer only when every other candidate is barred. Country and ASN
      caps hold for everything the strict passes chose, which the selection extends. */
  lemma SelectionGuarantees(p: TrafficPolicy, pool: seq<PeerCandidate>)
    requires PolicyOk(p)
    ensures var s := Selection(p, pool);
      && Fair(p, pool, s)
      && |s| <= p.targetConnections
      && (|s| < p.targetConnections ==> forall c :: c in pool ==> Barred(p, s, c))
    ensures Capped(p, StrictPasses(p, pool)) && StrictPasses(p, pool) <= Selection(p, pool)
  {
    StrictKeeps(p, pool);
    var strict := StrictPasses(p, pool);
    LastPass(p, pool, strict);
  }

  lemma LastPass(p: TrafficPolicy, pool: seq<PeerCandidate>, strict: seq<PeerCandidate>)
    requires Fair(p, pool, strict) && |strict| <= p.targetConnections
    ensures var all := Pass(p, FallbackRank(), pool, Max(p.targetConnections - |strict|, 0), strict, true);
      && Fair(p, pool, all)
      && |all| <= p.targetConnections && all[..Min(p.targetConnections, |all|)] == all
      && (|all| < p.targetConnections ==> forall c :: c in pool ==> Barred(p, all, c))
      && strict <= all
  {
    var count := p.targetConnections - |strict|;
    var all := Pass(p, FallbackRank(), pool, count, strict, true);
    PassKeeps(p, FallbackRank(), pool, count, strict, true);
    RankedMembers(FallbackRank(), pool);
    if |all| < p.targetConnections {
      forall c | c in pool ensures Barred(p, all, c) {
        ShortMeansBarred(p, Sort(By(FallbackRank()), pool), p.targetConnections, strict, c);
      }
    }
  }

  // ---------- Order of the input ----------

  ghost predicate DistinctIds(peers: seq<PeerCandidate>) {
    forall a, b :: a in peers && b in peers && a.peerId == b.peerId ==> a == b
  }

  lemma PassIgnoresOrder(p: TrafficPolicy, rank: Rank, a: seq<PeerCandidate>, b: seq<PeerCandidate>, count: nat,
                         selected: seq<PeerCandidate>, relaxed: bool)
    requires multiset(a) == multiset(b) && DistinctIds(a)
    ensures Pass(p, rank, a, count, selected, relaxed) == Pass(p, rank, b, count, selected, relaxed)
  {
    RankOrder(rank);
    SortIgnoresOrder(By(rank), a, b);
  }

  /** In whatever order the hash map lists the candidates, the selection is the same. */
  lemma SelectionIgnoresListing(p: TrafficPolicy, a: seq<PeerCandidate>, b: seq<PeerCandidate>)
    requires multiset(a) == multiset(b) && DistinctIds(a)
    ensures Selection(p, a) == Selection(p, b)
  {
    var near := Pass(p, NearbyRank(), a, p.nearbySlots, [], false);
    PassIgnoresOrder(p, NearbyRank(), a, b, p.nearbySlots, [], false);
    var diverse := Pass(p, DiverseRank(near), a, p.diversitySlots, near, false);
    PassIgnoresOrder(p, DiverseRank(near), a, b, p.diversitySlots, near, false);
    var strict := Pass(p, LowLoadRank(), a, p.lowLoadSlots, diverse, false);
    PassIgnoresOrder(p, LowLoadRank(), a, b, p.lowLoadSlots, diverse, false);
    PassIgnoresOrder(p, FallbackRank(), a, b, Max(p.targetConnections - |strict|, 0), strict, true);
  }

  /** No two positions carry the same id. */
  ghost predicate OnePerId(peers: seq<PeerCandidate>) {
    forall i, j :: 0 <= i < j < |peers| ==> peers[i].peerId != peers[j].peerId
  }

  lemma {:induction false} UniqueDistinct(candidates: seq<PeerCandidate>)
    ensures OnePerId(Unique(candidates))
    ensures forall c :: c in Unique(candidates) ==> c in candidates && Usable(c)
    ensures forall c :: c in candidates && Usable(c) ==> KnownId(Unique(candidates), c.peerId)
  {
    if candidates != [] {
      var front, last := candidates[..|candidates| - 1], candidates[|candidates| - 1];
      UniqueDistinct(front);
      var before, after := Unique(front), Unique(candidates);
      assert candidates == front + [last];
      assert forall c :: c in before ==> c in after;
      forall c | c in candidates && Usable(c) ensures KnownId(after, c.peerId) {
        if KnownId(before, c.peerId) {
          var q :| q in before && q.peerId == c.peerId;
          assert q in after;
        } else {
          assert c !in front && c == last && c in after;
        }
      }
    }
  }

  /** Of several usable candidates with one id the first one counts. */
  lemma {:induction false} UniqueKeepsFirst(candidates: seq<PeerCandidate>, i: nat)
    requires i < |candidates| && Usable(candidates[i])
    requires forall j :: 0 <= j < i && Usable(candidates[j]) ==> candidates[j].peerId != candidates[i].peerId
    ensures candidates[i] in Unique(candidates)
    decreases |candidates|
  {
    var front := candidates[..|candidates| - 1];
    if i < |front| {
      UniqueKeepsFirst(front, i);
    } else {
      UniqueDistinct(front);
    }
  }

  /** With one candidate per id, removing duplicates is just dropping the unusable. */
  lemma {:induction false} UniqueIsFilter(candidates: seq<PeerCandidate>)
    requires OnePerId(candidates)
    ensures Unique(candidates) == Filter((c: PeerCandidate) => Usable(c), candidates)
  {
    var f := (c: PeerCandidate) => Usable(c);
    if candidates != [] {
      var front, last := candidates[..|candidates| - 1], candidates[|candidates| - 1];
      UniqueIsFilter(front);
      UniqueDistinct(front);
      assert candidates == front + [last];
      FilterConcat(f, front, [last]);
      assert [last][1..] == [];
      assert !KnownId(Unique(front), last.peerId);
    }
  }

  lemma {:induction false} FilterMultiset<T>(f: T -> bool, a: seq<T>, x: T)
    ensures multiset(Filter(f, a))[x] == if f(x) then multiset(a)[x] else 0
  {
    if a != [] {
      FilterMultiset(f, a[1..], x);
      assert a == [a[0]] + a[1..];
    }
  }

  /** For distinct ids the selection does not depend on the order of the input. */
  lemma SelectionIgnoresOrder(p: TrafficPolicy, a: seq<PeerCandidate>, b: seq<PeerCandidate>)
    requires multiset(a) == multiset(b) && OnePerId(a) && OnePerId(b)
    ensures Selection(p, Unique(a)) == Selection(p, Unique(b))
  {
    var f := (c: PeerCandidate) => Usable(c);
    UniqueIsFilter(a);
    UniqueIsFilter(b);
    UniqueDistinct(a);
    var x, y := Unique(a), Unique(b);
    forall c ensures multiset(x)[c] == multiset(y)[c] {
      FilterMultiset(f, a, c);
      FilterMultiset(f, b, c);
    }
    assert multiset(x) == multiset(y);
    SelectionIgnoresListing(p, x, y);
  }
}
