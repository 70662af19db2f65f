/** The snapshot chunk scheduler (src/snapshot_scheduler.rs): missing chunks wait, are in
    flight with one peer, or are complete. `completed` and `log` are journals that the
    source does not keep; they record what was delivered and every assignment made. */
module Chunks {
  import opened Basics
  import opened Weights

  type Chunk = u32
  type Peer = string

  datatype InFlight = InFlight(peer: Peer, started: nat)
  datatype ChunkAssignment = ChunkAssignment(peer: Peer, chunk: Chunk)

  datatype Settings = Settings(peers: seq<Peer>, timeout: nat, maxInFlight: nat, maxRetries: u32)

  predicate SettingsOk(cfg: Settings) {
    |cfg.peers| >= 2 && cfg.maxInFlight > 0 && cfg.maxRetries > 0
  }

  type Failures = map<(Peer, Chunk), nat>

  datatype Scheduler = Scheduler(
    pending: seq<Chunk>, inFlight: map<Chunk, InFlight>, failures: Failures, cursor: nat,
    completed: map<Chunk, Peer>, log: seq<ChunkAssignment>)

  function Initial(missing: seq<Chunk>): Scheduler {
    Scheduler(missing, map[], map[], 0, map[], [])
  }

  function Failed(failures: Failures, peer: Peer, chunk: Chunk): nat {
    if (peer, chunk) in failures then failures[(peer, chunk)] else 0
  }

  predicate Assigned(s: Scheduler, peer: Peer, chunk: Chunk) {
    chunk in s.inFlight && s.inFlight[chunk].peer == peer
  }

  function Complete(s: Scheduler, peer: Peer, chunk: Chunk): Option<Scheduler> {
    if Assigned(s, peer, chunk) then Some(s.(inFlight := s.inFlight - {chunk}, completed := s.completed[chunk := peer]))
    else None
  }

  function Fail(s: Scheduler, peer: Peer, chunk: Chunk): Scheduler {
    if Assigned(s, peer, chunk) then
      s.(inFlight := s.inFlight - {chunk},
         failures := s.failures[(peer, chunk) := Failed(s.failures, peer, chunk) + 1],
         pending := s.pending + [chunk])
    else s
  }

  // ---------- Timeouts ----------

  predicate TimedOut(cfg: Settings, f: InFlight, now: nat) {
    Max(now - f.started, 0) >= cfg.timeout
  }

  ghost function Overdue(cfg: Settings, s: Scheduler, now: nat): set<Chunk> {
    set c | c in s.inFlight && TimedOut(cfg, s.inFlight[c], now)
  }

  /** Fails the given chunks with the peers they are assigned to. */
  function RequeueAll(s: Scheduler, order: seq<Chunk>): Scheduler
    decreases |order|
  {
    if order == [] then s
    else if order[0] in s.inFlight then RequeueAll(Fail(s, s.inFlight[order[0]].peer, order[0]), order[1..])
    else RequeueAll(s, order[1..])
  }

  // ---------- Assignment ----------

  const USIZE: nat := 0x1_0000_0000_0000_0000

  /** Tries the next `tries` positions of the round robin; the cursor wraps like `usize`. */
  function NextPeer(cfg: Settings, failures: Failures, cursor: nat, chunk: Chunk, tries: nat): (r: (Option<Peer>, nat))
    requires cfg.peers != []
    ensures r.0.Some? ==> r.0.value in cfg.peers && Failed(failures, r.0.value, chunk) < cfg.maxRetries
    decreases tries
  {
    if tries == 0 then (None, cursor)
    else
      var peer := cfg.peers[cursor % |cfg.peers|];
      var next := (cursor + 1) % USIZE;
      if Failed(failures, peer, chunk) < cfg.maxRetries then (Some(peer), next)
      else NextPeer(cfg, failures, next, chunk, tries - 1)
  }

  function AssignNext(cfg: Settings, s: Scheduler, now: nat): (r: (Scheduler, bool))
    requires cfg.peers != [] && s.pending != []
    ensures r.1 ==> |r.0.pending| < |s.pending|
  {
    var chunk := s.pending[0];
    var (peer, cursor) := NextPeer(cfg, s.failures, s.cursor, chunk, |cfg.peers|);
    if peer.None? then (s.(pending := s.pending[1..] + [chunk], cursor := cursor), false)
    else
      (s.(pending := s.pending[1..], cursor := cursor,
          inFlight := s.inFlight[chunk := InFlight(peer.value, now)],
          log := s.log + [ChunkAssignment(peer.value, chunk)]), true)
  }

  function AssignLoop(cfg: Settings, s: Scheduler, now: nat): Scheduler
    requires cfg.peers != []
    decreases |s.pending|
  {
    if |s.inFlight| >= cfg.maxInFlight || s.pending == [] then s
    else
      var (t, again) := AssignNext(cfg, s, now);
      if again then AssignLoop(cfg, t, now) else t
  }

  /** `assign`; `order` is the order in which the overdue chunks were visited. */
  function Assign(cfg: Settings, s: Scheduler, now: nat, order: seq<Chunk>): Scheduler
    requires cfg.peers != []
  {
    AssignLoop(cfg, RequeueAll(s, order), now)
  }

  // ---------- The invariant ----------

  ghost predicate NoRepeat(chunks: seq<Chunk>) {
    forall i, j :: 0 <= i < j < |chunks| ==> chunks[i] != chunks[j]
  }

  ghost function Elements(chunks: seq<Chunk>): set<Chunk> {
    set c | c in chunks
  }

  /** Every missing chunk is in exactly one place. */
  ghost predicate Partition(missing: set<Chunk>, s: Scheduler) {
    && NoRepeat(s.pending)
    && (forall c :: c in s.pending ==> c !in s.inFlight && c !in s.completed)
    && s.inFlight.Keys !! s.completed.Keys
    && (forall c :: c in missing <==> c in s.pending || c in s.inFlight || c in s.completed)
  }

  ghost predicate WithinRetries(cfg: Settings, s: Scheduler) {
    && (forall p, c :: Failed(s.failures, p, c) <= cfg.maxRetries)
    && (forall c :: c in s.inFlight ==>
          s.inFlight[c].peer in cfg.peers && Failed(s.failures, s.inFlight[c].peer, c) < cfg.maxRetries)
    && (forall c :: c in s.completed ==>
          s.completed[c] in cfg.peers && Failed(s.failures, s.completed[c], c) < cfg.maxRetries)
  }

  ghost function PeerSet(cfg: Settings): set<Peer> {
    set p | p in cfg.peers
  }

  ghost function FailuresOf(cfg: Settings, failures: Failures, chunk: Chunk): map<string, nat> {
    map p | p in PeerSet(cfg) :: Failed(failures, p, chunk)
  }

  function Times(log: seq<ChunkAssignment>, chunk: Chunk): nat {
    if log == [] then 0
    else Times(log[..|log| - 1], chunk) + if log[|log| - 1].chunk == chunk then 1 else 0
  }

  predicate Placed(s: Scheduler, chunk: Chunk) {
    chunk in s.inFlight || chunk in s.completed
  }

  /** Every assignment of a chunk has failed, except the one in flight or delivered. */
  ghost predicate Accounted(cfg: Settings, s: Scheduler, chunk: Chunk) {
    Times(s.log, chunk) == Total(FailuresOf(cfg, s.failures, chunk)) + if Placed(s, chunk) then 1 else 0
  }

  ghost predicate Inv(cfg: Settings, missing: set<Chunk>, s: Scheduler) {
    && Partition(missing, s)
    && |s.inFlight| <= cfg.maxInFlight
    && WithinRetries(cfg, s)
    && (forall c :: Accounted(cfg, s, c))
  }

  lemma Distribute(n: nat, bound: nat)
    ensures (n + 1) * bound == n * bound + bound
  {
  }

  lemma {:induction false} SumBound(m: map<string, nat>, keys: set<string>, bound: nat)
    requires forall k :: k in keys ==> Weight(m, k) <= bound
    ensures Sum(m, keys) <= |keys| * bound
    decreases |keys|
  {
    if keys != {} {
      var k :| k in keys;
      SumRemove(m, keys, k);
      SumBound(m, keys - {k}, bound);
      Distribute(|keys - {k}|, bound);
    }
  }

  lemma InitialInv(cfg: Settings, missing: seq<Chunk>)
    requires NoRepeat(missing)
    ensures Inv(cfg, Elements(missing), Initial(missing))
  {
    var s := Initial(missing);
    forall c: Chunk ensures Accounted(cfg, s, c) {
      var m := FailuresOf(cfg, s.failures, c);
      SumBound(m, m.Keys, 0);
    }
  }

  lemma CompleteInv(cfg: Settings, missing: set<Chunk>, s: Scheduler, peer: Peer, chunk: Chunk)
    requires Inv(cfg, missing, s) && Assigned(s, peer, chunk)
    ensures Inv(cfg, missing, Complete(s, peer, chunk).value)
  {
    var t := Complete(s, peer, chunk).value;
    assert t.inFlight.Keys == s.inFlight.Keys - {chunk};
    forall c: Chunk ensures Accounted(cfg, t, c) {
      assert Accounted(cfg, s, c);
    }
  }

  lemma FailCounts(cfg: Settings, failures: Failures, peer: Peer, chunk: Chunk, c: Chunk)
    requires peer in cfg.peers
    ensures var more := failures[(peer, chunk) := Failed(failures, peer, chunk) + 1];
      Total(FailuresOf(cfg, more, c)) == Total(FailuresOf(cfg, failures, c)) + if c == chunk then 1 else 0
  {
    var more := failures[(peer, chunk) := Failed(failures, peer, chunk) + 1];
    var m, n := FailuresOf(cfg, failures, c), FailuresOf(cfg, more, c);
    if c == chunk {
      assert n == m[peer := m[peer] + 1];
      TotalUpdate(m, peer, m[peer] + 1);
    } else {
      assert n == m;
    }
  }

  lemma FailPartition(missing: set<Chunk>, s: Scheduler, peer: Peer, chunk: Chunk)
    requires Partition(missing, s) && Assigned(s, peer, chunk)
    ensures Partition(missing, Fail(s, peer, chunk))
  {
    var t := Fail(s, peer, chunk);
    assert chunk !in s.pending;
    forall c ensures c in t.pending <==> c in s.pending || c == chunk {
    }
  }

  lemma FailRetries(cfg: Settings, s: Scheduler, peer: Peer, chunk: Chunk)
    requires WithinRetries(cfg, s) && Assigned(s, peer, chunk) && chunk !in s.completed
    ensures WithinRetries(cfg, Fail(s, peer, chunk))
  {
    var t := Fail(s, peer, chunk);
    forall p, c: Chunk ensures Failed(t.failures, p, c) <= cfg.maxRetries {
      assert Failed(s.failures, p, c) <= cfg.maxRetries;
      if p == peer && c == chunk {
        assert Failed(s.failures, s.inFlight[c].peer, c) < cfg.maxRetries;
      }
    }
  }

  lemma FailInv(cfg: Settings, missing: set<Chunk>, s: Scheduler, peer: Peer, chunk: Chunk)
    requires Inv(cfg, missing, s)
    ensures Inv(cfg, missing, Fail(s, peer, chunk))
  {
    if Assigned(s, peer, chunk) {
      var t := Fail(s, peer, chunk);
      FailPartition(missing, s, peer, chunk);
      FailRetries(cfg, s, peer, chunk);
      assert t.inFlight.Keys == s.inFlight.Keys - {chunk};
      forall c: Chunk ensures Accounted(cfg, t, c) {
        assert Accounted(cfg, s, c);
        FailCounts(cfg, s.failures, peer, chunk, c);
      }
    }
  }

  lemma {:induction false} RequeueInv(cfg: Settings, missing: set<Chunk>, s: Scheduler, order: seq<Chunk>)
    requires Inv(cfg, missing, s)
    ensures Inv(cfg, missing, RequeueAll(s, order))
    decreases |order|
  {
    if order != [] {
      if order[0] in s.inFlight {
        var peer := s.inFlight[order[0]].peer;
        FailInv(cfg, missing, s, peer, order[0]);
        RequeueInv(cfg, missing, Fail(s, peer, order[0]), order[1..]);
      } else {
        RequeueInv(cfg, missing, s, order[1..]);
      }
    }
  }

  lemma AssignPartition(cfg: Settings, missing: set<Chunk>, s: Scheduler, now: nat)
    requires cfg.peers != [] && s.pending != [] && Partition(missing, s)
    ensures Partition(missing, AssignNext(cfg, s, now).0)
  {
    var t := AssignNext(cfg, s, now).0;
    var chunk := s.pending[0];
    assert forall c :: c in s.pending <==> c == chunk || c in s.pending[1..];
    assert chunk !in s.pending[1..];
    forall c ensures c in t.pending <==> c in s.pending && (c != chunk || !AssignNext(cfg, s, now).1) {
    }
  }

  lemma TimesMore(log: seq<ChunkAssignment>, a: ChunkAssignment, c: Chunk)
    ensures Times(log + [a], c) == Times(log, c) + if a.chunk == c then 1 else 0
  {
    assert (log + [a])[..|log|] == log;
  }

  lemma AssignAccounted(cfg: Settings, s: Scheduler, now: nat, c: Chunk)
    requires cfg.peers != [] && s.pending != [] && !Placed(s, s.pending[0]) && Accounted(cfg, s, c)
    ensures Accounted(cfg, AssignNext(cfg, s, now).0, c)
  {
    var t := AssignNext(cfg, s, now).0;
    assert t.failures == s.failures && t.completed == s.completed;
    if AssignNext(cfg, s, now).1 {
      var a := t.log[|s.log|];
      assert t.log == s.log + [a] && a.chunk == s.pending[0];
      TimesMore(s.log, a, c);
      assert Placed(t, c) <==> Placed(s, c) || c == a.chunk;
    }
  }

  lemma AssignNextInv(cfg: Settings, missing: set<Chunk>, s: Scheduler, now: nat)
    requires cfg.peers != [] && s.pending != [] && |s.inFlight| < cfg.maxInFlight && Inv(cfg, missing, s)
    ensures Inv(cfg, missing, AssignNext(cfg, s, now).0)
  {
    var t := AssignNext(cfg, s, now).0;
    AssignPartition(cfg, missing, s, now);
    assert s.pending[0] in s.pending;
    forall c: Chunk ensures Accounted(cfg, t, c) {
      assert Accounted(cfg, s, c);
      AssignAccounted(cfg, s, now, c);
    }
    assert t.inFlight.Keys <= s.inFlight.Keys + {s.pending[0]};
  }

  lemma {:induction false} AssignLoopInv(cfg: Settings, missing: set<Chunk>, s: Scheduler, now: nat)
    requires cfg.peers != [] && Inv(cfg, missing, s)
    ensures Inv(cfg, missing, AssignLoop(cfg, s, now))
    decreases |s.pending|
  {
    if |s.inFlight| < cfg.maxInFlight && s.pending != [] {
      AssignNextInv(cfg, missing, s, now);
      var (t, again) := AssignNext(cfg, s, now);
      if again {
        AssignLoopInv(cfg, missing, t, now);
      }
    }
  }

  // ---------- Runs ----------

  datatype Call =
    | AssignCall(now: nat, order: seq<Chunk>)
    | CompleteCall(peer: Peer, chunk: Chunk)
    | FailCall(failedPeer: Peer, failedChunk: Chunk)

  function Step(cfg: Settings, s: Scheduler, call: Call): Scheduler
    requires cfg.peers != []
  {
    match call
    case AssignCall(now, order) => Assign(cfg, s, now, order)
    case CompleteCall(peer, chunk) => (match Complete(s, peer, chunk) case None => s case Some(t) => t)
    case FailCall(peer, chunk) => Fail(s, peer, chunk)
  }

  function Run(cfg: Settings, s: Scheduler, calls: seq<Call>): Scheduler
    requires cfg.peers != []
    decreases |calls|
  {
    if calls == [] then s else Run(cfg, Step(cfg, s, calls[0]), calls[1..])
  }

  lemma StepInv(cfg: Settings, missing: set<Chunk>, s: Scheduler, call: Call)
    requires cfg.peers != [] && Inv(cfg, missing, s)
    ensures Inv(cfg, missing, Step(cfg, s, call))
  {
    match call
    case AssignCall(now, order) =>
      RequeueInv(cfg, missing, s, order);
      AssignLoopInv(cfg, missing, RequeueAll(s, order), now);
    case CompleteCall(peer, chunk) =>
      if Assigned(s, peer, chunk) {
        CompleteInv(cfg, missing, s, peer, chunk);
      }
    case FailCall(peer, chunk) =>
      FailInv(cfg, missing, s, peer, chunk);
  }

  /** Whatever calls are made, for distinct missing chunks: waiting, in-flight and completed
      chunks partition the missing ones, the cap and the retry limits hold. */
  lemma {:induction false} RunInv(cfg: Settings, missing: set<Chunk>, s: Scheduler, calls: seq<Call>)
    requires cfg.peers != [] && Inv(cfg, missing, s)
    ensures Inv(cfg, missing, Run(cfg, s, calls))
    decreases |calls|
  {
    if calls != [] {
      StepInv(cfg, missing, s, calls[0]);
      RunInv(cfg, missing, Step(cfg, s, calls[0]), calls[1..]);
    }
  }

  lemma TotalBelow(m: map<string, nat>, bound: nat, key: string)
    requires key in m && m[key] < bound && forall k :: k in m ==> m[k] <= bound
    ensures Total(m) + 1 <= |m.Keys| * bound
  {
    SumRemove(m, m.Keys, key);
    SumBound(m, m.Keys - {key}, bound);
    Distribute(|m.Keys - {key}|, bound);
  }

  /** No chunk is ever assigned more often than there are peers times retries. */
  lemma AssignmentBound(cfg: Settings, missing: seq<Chunk>, calls: seq<Call>, chunk: Chunk)
    requires cfg.peers != [] && NoRepeat(missing)
    ensures Times(Run(cfg, Initial(missing), calls).log, chunk) <= |PeerSet(cfg)| * cfg.maxRetries
  {
    InitialInv(cfg, missing);
    RunInv(cfg, Elements(missing), Initial(missing), calls);
    var s := Run(cfg, Initial(missing), calls);
    var m := FailuresOf(cfg, s.failures, chunk);
    assert Accounted(cfg, s, chunk);
    assert m.Keys == PeerSet(cfg);
    if chunk in s.inFlight {
      TotalBelow(m, cfg.maxRetries, s.inFlight[chunk].peer);
    } else if chunk in s.completed {
      TotalBelow(m, cfg.maxRetries, s.completed[chunk]);
    } else {
      SumBound(m, m.Keys, cfg.maxRetries);
    }
  }

  /** The scheduler reports done exactly when every missing chunk was delivered. */
  lemma DoneIff(cfg: Settings, missing: set<Chunk>, s: Scheduler)
    requires Inv(cfg, missing, s)
    ensures s.pending == [] && s.inFlight == map[] <==> s.completed.Keys == missing
  {
    assert s.pending != [] ==> s.pending[0] in s.pending && s.pending[0] !in s.completed;
    if s.completed.Keys == missing {
      assert s.inFlight.Keys == {};
    }
  }

  // ---------- Lists with repetitions ----------

  /** Assignments made and entries waiting are failures counted and entries listed. */
  ghost predicate Balanced(cfg: Settings, missing: seq<Chunk>, s: Scheduler, c: Chunk) {
    Times(s.log, c) + multiset(s.pending)[c] == Total(FailuresOf(cfg, s.failures, c)) + multiset(missing)[c]
  }

  /** Every listed chunk, and no other, is waiting, in flight or delivered. */
  ghost predicate Covered(missing: seq<Chunk>, s: Scheduler) {
    forall c :: c in missing <==> c in s.pending || c in s.inFlight || c in s.completed
  }

  /** What holds for any list of missing chunks, also if it names a chunk twice. */
  ghost predicate LooseInv(cfg: Settings, missing: seq<Chunk>, s: Scheduler) {
    && |s.inFlight| <= cfg.maxInFlight
    && (forall p, c :: Failed(s.failures, p, c) <= cfg.maxRetries)
    && (forall c :: c in s.inFlight ==>
          s.inFlight[c].peer in cfg.peers && Failed(s.failures, s.inFlight[c].peer, c) < cfg.maxRetries)
    && (forall c :: Balanced(cfg, missing, s, c))
    && Covered(missing, s)
  }

  lemma LooseInitial(cfg: Settings, missing: seq<Chunk>)
    ensures LooseInv(cfg, missing, Initial(missing))
  {
    var s := Initial(missing);
    forall c: Chunk ensures Balanced(cfg, missing, s, c) {
      var m := FailuresOf(cfg, s.failures, c);
      SumBound(m, m.Keys, 0);
    }
  }

  lemma FailedOnce(failures: Failures, peer: Peer, chunk: Chunk, bound: nat)
    requires Failed(failures, peer, chunk) < bound && forall p, c :: Failed(failures, p, c) <= bound
    ensures var more := failures[(peer, chunk) := Failed(failures, peer, chunk) + 1];
      forall p, c :: Failed(more, p, c) <= bound
  {
    var more := failures[(peer, chunk) := Failed(failures, peer, chunk) + 1];
    forall p, c: Chunk ensures Failed(more, p, c) <= bound {
      assert Failed(failures, p, c) <= bound;
    }
  }

  lemma FailCovered(missing: seq<Chunk>, s: Scheduler, peer: Peer, chunk: Chunk)
    requires Covered(missing, s) && Assigned(s, peer, chunk)
    ensures Covered(missing, Fail(s, peer, chunk))
  {
    var t := Fail(s, peer, chunk);
    forall c ensures c in t.pending <==> c in s.pending || c == chunk {
    }
  }

  lemma LooseFail(cfg: Settings, missing: seq<Chunk>, s: Scheduler, peer: Peer, chunk: Chunk)
    requires LooseInv(cfg, missing, s)
    ensures LooseInv(cfg, missing, Fail(s, peer, chunk))
  {
    if Assigned(s, peer, chunk) {
      var t := Fail(s, peer, chunk);
      FailedOnce(s.failures, peer, chunk, cfg.maxRetries);
      FailCovered(missing, s, peer, chunk);
      assert t.inFlight.Keys == s.inFlight.Keys - {chunk};
      forall c: Chunk ensures Balanced(cfg, missing, t, c) {
        assert Balanced(cfg, missing, s, c);
        FailCounts(cfg, s.failures, peer, chunk, c);
      }
    }
  }

  lemma {:induction false} LooseRequeue(cfg: Settings, missing: seq<Chunk>, s: Scheduler, order: seq<Chunk>)
    requires LooseInv(cfg, missing, s)
    ensures LooseInv(cfg, missing, RequeueAll(s, order))
    decreases |order|
  {
    if order != [] {
      if order[0] in s.inFlight {
        var peer := s.inFlight[order[0]].peer;
        LooseFail(cfg, missing, s, peer, order[0]);
        LooseRequeue(cfg, missing, Fail(s, peer, order[0]), order[1..]);
      } else {
        LooseRequeue(cfg, missing, s, order[1..]);
      }
    }
  }

  lemma PendingCount(pending: seq<Chunk>, c: Chunk)
    requires pending != []
    ensures multiset(pending)[c] == multiset(pending[1..])[c] + if c == pending[0] then 1 else 0
    ensures multiset(pending[1..] + [pending[0]])[c] == multiset(pending)[c]
  {
    assert pending == [pending[0]] + pending[1..];
  }

  lemma AssignBalanced(cfg: Settings, missing: seq<Chunk>, s: Scheduler, now: nat, c: Chunk)
    requires cfg.peers != [] && s.pending != [] && Balanced(cfg, missing, s, c)
    ensures Balanced(cfg, missing, AssignNext(cfg, s, now).0, c)
  {
    var (t, given) := AssignNext(cfg, s, now);
    PendingCount(s.pending, c);
    assert t.failures == s.failures;
    if given {
      assert t.log[..|t.log| - 1] == s.log;
    }
  }

  lemma AssignCovered(cfg: Settings, missing: seq<Chunk>, s: Scheduler, now: nat)
    requires cfg.peers != [] && s.pending != [] && Covered(missing, s)
    ensures Covered(missing, AssignNext(cfg, s, now).0)
  {
    var t := AssignNext(cfg, s, now).0;
    var chunk := s.pending[0];
    assert forall c :: c in s.pending <==> c == chunk || c in s.pending[1..];
    forall c ensures c in t.pending || c in t.inFlight <==> c in s.pending || c in s.inFlight {
    }
  }

  lemma LooseAssignNext(cfg: Settings, missing: seq<Chunk>, s: Scheduler, now: nat)
    requires cfg.peers != [] && s.pending != [] && |s.inFlight| < cfg.maxInFlight && LooseInv(cfg, missing, s)
    ensures LooseInv(cfg, missing, AssignNext(cfg, s, now).0)
  {
    var t := AssignNext(cfg, s, now).0;
    forall c: Chunk ensures Balanced(cfg, missing, t, c) {
      assert Balanced(cfg, missing, s, c);
      AssignBalanced(cfg, missing, s, now, c);
    }
    AssignCovered(cfg, missing, s, now);
    assert t.inFlight.Keys <= s.inFlight.Keys + {s.pending[0]};
  }

  lemma {:induction false} LooseAssignLoop(cfg: Settings, missing: seq<Chunk>, s: Scheduler, now: nat)
    requires cfg.peers != [] && LooseInv(cfg, missing, s)
    ensures LooseInv(cfg, missing, AssignLoop(cfg, s, now))
    decreases |s.pending|
  {
    if |s.inFlight| < cfg.maxInFlight && s.pending != [] {
      LooseAssignNext(cfg, missing, s, now);
      var (t, again) := AssignNext(cfg, s, now);
      if again {
        LooseAssignLoop(cfg, missing, t, now);
      }
    }
  }

  lemma LooseComplete(cfg: Settings, missing: seq<Chunk>, s: Scheduler, peer: Peer, chunk: Chunk)
    requires LooseInv(cfg, missing, s) && Assigned(s, peer, chunk)
    ensures LooseInv(cfg, missing, Complete(s, peer, chunk).value)
  {
    var t := Complete(s, peer, chunk).value;
    assert t.inFlight.Keys == s.inFlight.Keys - {chunk};
    forall c: Chunk ensures Balanced(cfg, missing, t, c) {
      assert Balanced(cfg, missing, s, c);
    }
  }

  lemma LooseStep(cfg: Settings, missing: seq<Chunk>, s: Scheduler, call: Call)
    requires cfg.peers != [] && LooseInv(cfg, missing, s)
    ensures LooseInv(cfg, missing, Step(cfg, s, call))
  {
    match call
    case AssignCall(now, order) =>
      LooseRequeue(cfg, missing, s, order);
      LooseAssignLoop(cfg, missing, RequeueAll(s, order), now);
    case CompleteCall(peer, chunk) =>
      if Assigned(s, peer, chunk) {
        LooseComplete(cfg, missing, s, peer, chunk);
      }
    case FailCall(peer, chunk) =>
      LooseFail(cfg, missing, s, peer, chunk);
  }

  /** Whatever calls are made and whatever list was given: cap and retry limits hold, and for
      every chunk the assignments made and the entries waiting balance the failures and the
      entries listed. */
  lemma {:induction false} LooseRun(cfg: Settings, missing: seq<Chunk>, s: Scheduler, calls: seq<Call>)
    requires cfg.peers != [] && LooseInv(cfg, missing, s)
    ensures LooseInv(cfg, missing, Run(cfg, s, calls))
    decreases |calls|
  {
    if calls != [] {
      LooseStep(cfg, missing, s, calls[0]);
      LooseRun(cfg, missing, Step(cfg, s, calls[0]), calls[1..]);
    }
  }

  /** When nothing is waiting or in flight, everything listed has been delivered. */
  lemma DoneDelivers(cfg: Settings, missing: seq<Chunk>, s: Scheduler)
    requires LooseInv(cfg, missing, s) && s.pending == [] && s.inFlight == map[]
    ensures s.completed.Keys == Elements(missing)
  {
    forall c ensures c in s.completed.Keys <==> c in Elements(missing) {
      assert c in missing <==> c in s.completed;
    }
  }

  /** The chunks are partitioned in every state of every run if and only if the list names no
      chunk twice. */
  lemma PartitionIff(cfg: Settings, missing: seq<Chunk>)
    requires cfg.peers != []
    ensures (forall calls :: Partition(Elements(missing), Run(cfg, Initial(missing), calls))) <==> NoRepeat(missing)
  {
    if NoRepeat(missing) {
      InitialInv(cfg, missing);
      forall calls ensures Partition(Elements(missing), Run(cfg, Initial(missing), calls)) {
        RunInv(cfg, Elements(missing), Initial(missing), calls);
      }
    } else {
      assert !Partition(Elements(missing), Run(cfg, Initial(missing), []));
    }
  }

  /** For any list, a chunk is assigned at most once per peer and retry and once more for each
      time it is listed. */
  lemma AssignmentBoundAny(cfg: Settings, missing: seq<Chunk>, calls: seq<Call>, chunk: Chunk)
    requires cfg.peers != []
    ensures Times(Run(cfg, Initial(missing), calls).log, chunk)
         <= |PeerSet(cfg)| * cfg.maxRetries + multiset(missing)[chunk]
  {
    LooseInitial(cfg, missing);
    LooseRun(cfg, missing, Initial(missing), calls);
    var s := Run(cfg, Initial(missing), calls);
    var m := FailuresOf(cfg, s.failures, chunk);
    assert Balanced(cfg, missing, s, chunk);
    assert m.Keys == PeerSet(cfg);
    SumBound(m, m.Keys, cfg.maxRetries);
  }
}
