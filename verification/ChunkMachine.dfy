/** The scheduler object of the source, proved call by call against `Chunks`. */
module ChunkMachine {
  import opened Basics
  import opened Chunks

  class SnapshotScheduler {
    const cfg: Settings
    var pending: seq<Chunk>
    var inFlight: map<Chunk, InFlight>
    var failures: Failures
    var cursor: nat
    ghost var completed: map<Chunk, Peer>
    ghost var log: seq<ChunkAssignment>
    ghost var missing: seq<Chunk>

    ghost function View(): Scheduler
      reads this
    {
      Scheduler(pending, inFlight, failures, cursor, completed, log)
    }

    ghost predicate Valid()
      reads this
    {
      && SettingsOk(cfg) && cursor < USIZE
      && LooseInv(cfg, missing, View())
      && (NoRepeat(missing) ==> Inv(cfg, Elements(missing), View()))
    }

    /** `new`: fewer than two peers or a zero limit are refused. */
    static method New(cfg: Settings, missing: seq<Chunk>) returns (r: Option<SnapshotScheduler>)
      ensures r.Some? <==> SettingsOk(cfg)
      ensures r.Some? ==> fresh(r.value) && r.value.Valid() && r.value.cfg == cfg && r.value.View() == Initial(missing)
    {
      if |cfg.peers| < 2 || cfg.maxInFlight == 0 || cfg.maxRetries == 0 {
        return None;
      }
      var scheduler := new SnapshotScheduler(cfg, missing);
      r := Some(scheduler);
    }

    constructor (cfg: Settings, missing: seq<Chunk>)
      requires SettingsOk(cfg)
      ensures Valid() && View() == Initial(missing) && this.cfg == cfg && this.missing == missing
    {
      this.cfg := cfg;
      pending, inFlight, failures, cursor := missing, map[], map[], 0;
      completed, log, this.missing := map[], [], missing;
      new;
      LooseInitial(cfg, missing);
      if NoRepeat(missing) {
        InitialInv(cfg, missing);
      }
    }

    /** Requeues what timed out, then hands out chunks until the cap, the queue or the peers
        are used up. The overdue chunks are visited in some order. */
    method Assign(now: nat) returns (given: seq<ChunkAssignment>, ghost order: seq<Chunk>)
      requires Valid()
      modifies this
      ensures Valid() && missing == old(missing)
      ensures multiset(order) == multiset(Overdue(cfg, old(View()), now))
      ensures View() == Chunks.Assign(cfg, old(View()), now, order)
      ensures log == old(log) + given
    {
      order := RequeueTimedOut(now);
      given := AssignChunks(now);
      Kept(cfg, missing, old(View()), AssignCall(now, order));
    }

    method AssignChunks(now: nat) returns (given: seq<ChunkAssignment>)
      requires cfg.peers != [] && cursor < USIZE
      modifies this
      ensures missing == old(missing) && cursor < USIZE
      ensures View() == AssignLoop(cfg, old(View()), now)
      ensures log == old(log) + given
    {
      given := [];
      var again := true;
      while again && |inFlight| < cfg.maxInFlight && pending != []
        invariant missing == old(missing) && cursor < USIZE
        invariant AssignLoop(cfg, old(View()), now) == if again then AssignLoop(cfg, View(), now) else View()
        invariant log == old(log) + given
        decreases again, |pending|
      {
        var next := AssignOne(now);
        if next.Some? {
          given := given + [next.value];
        } else {
          again := false;
        }
      }
    }

    method AssignOne(now: nat) returns (a: Option<ChunkAssignment>)
      requires cfg.peers != [] && pending != [] && cursor < USIZE
      modifies this
      ensures missing == old(missing) && cursor < USIZE
      ensures (View(), a.Some?) == AssignNext(cfg, old(View()), now)
      ensures log == old(log) + if a.Some? then [a.value] else []
    {
      var chunk := pending[0];
      pending := pending[1..];
      var peer := NextPeer(chunk);
      if peer.None? {
        pending := pending + [chunk];
        return None;
      }
      inFlight := inFlight[chunk := InFlight(peer.value, now)];
      log := log + [ChunkAssignment(peer.value, chunk)];
      a := Some(ChunkAssignment(peer.value, chunk));
    }

    /** One round of the round robin, starting at the cursor. */
    method NextPeer(chunk: Chunk) returns (peer: Option<Peer>)
      requires cfg.peers != [] && cursor < USIZE
      modifies this`cursor
      ensures cursor < USIZE
      ensures (peer, cursor) == Chunks.NextPeer(cfg, failures, old(cursor), chunk, |cfg.peers|)
    {
      var tries := 0;
      while tries < |cfg.peers|
        invariant 0 <= tries <= |cfg.peers| && cursor < USIZE
        invariant Chunks.NextPeer(cfg, failures, old(cursor), chunk, |cfg.peers|)
          == Chunks.NextPeer(cfg, failures, cursor, chunk, |cfg.peers| - tries)
      {
        var candidate := cfg.peers[cursor % |cfg.peers|];
        cursor := (cursor + 1) % USIZE;
        if Failed(failures, candidate, chunk) < cfg.maxRetries {
          return Some(candidate);
        }
        tries := tries + 1;
      }
      peer := None;
    }

    method Complete(peer: Peer, chunk: Chunk) returns (ok: bool)
      requires Valid()
      modifies this
      ensures Valid() && missing == old(missing)
      ensures ok <==> Assigned(old(View()), peer, chunk)
      ensures View() == if ok then Chunks.Complete(old(View()), peer, chunk).value else old(View())
    {
      if chunk in inFlight && inFlight[chunk].peer == peer {
        Kept(cfg, missing, View(), CompleteCall(peer, chunk));
        inFlight := inFlight - {chunk};
        completed := completed[chunk := peer];
        ok := true;
      } else {
        ok := false;
      }
    }

    method Fail(peer: Peer, chunk: Chunk)
      requires Valid()
      modifies this
      ensures Valid() && missing == old(missing)
      ensures View() == Chunks.Fail(old(View()), peer, chunk)
    {
      Kept(cfg, missing, View(), FailCall(peer, chunk));
      GiveBack(peer, chunk);
    }

    method GiveBack(peer: Peer, chunk: Chunk)
      modifies this
      ensures missing == old(missing) && cursor == old(cursor)
      ensures View() == Chunks.Fail(old(View()), peer, chunk)
    {
      if chunk in inFlight && inFlight[chunk].peer == peer {
        inFlight := inFlight - {chunk};
        failures := failures[(peer, chunk) := Failed(failures, peer, chunk) + 1];
        pending := pending + [chunk];
      }
    }

    /** Done means that every missing chunk has been delivered, and for distinct chunks it is
        reported as soon as that is so. */
    method IsDone() returns (done: bool)
      requires Valid()
      ensures done ==> completed.Keys == Elements(missing)
      ensures NoRepeat(missing) ==> (done <==> completed.Keys == Elements(missing))
    {
      done := pending == [] && inFlight == map[];
      if done {
        DoneDelivers(cfg, missing, View());
      }
      if NoRepeat(missing) {
        DoneIff(cfg, Elements(missing), View());
      }
    }

    method RequeueTimedOut(now: nat) returns (ghost order: seq<Chunk>)
      modifies this
      ensures missing == old(missing) && log == old(log) && cursor == old(cursor)
      ensures multiset(order) == multiset(Overdue(cfg, old(View()), now))
      ensures View() == RequeueAll(old(View()), order)
    {
      var overdue := set c | c in inFlight && TimedOut(cfg, inFlight[c], now);
      var left := overdue;
      order := [];
      while left != {}
        invariant missing == old(missing) && log == old(log) && cursor == old(cursor)
        invariant left <= overdue && multiset(order) == multiset(overdue - left)
        invariant forall c :: c in left ==> c in inFlight && inFlight[c] == old(inFlight)[c]
        invariant View() == RequeueAll(old(View()), order)
        decreases |left|
      {
        var c :| c in left;
        RequeueSnoc(old(View()), order, c);
        GiveBack(inFlight[c].peer, c);
        assert overdue - (left - {c}) == (overdue - left) + {c};
        left := left - {c};
        order := order + [c];
      }
      assert overdue - left == overdue;
    }
  }

  /** Both invariants of the scheduler survive every call. */
  lemma Kept(cfg: Settings, missing: seq<Chunk>, s: Scheduler, call: Call)
    requires cfg.peers != [] && LooseInv(cfg, missing, s) && (NoRepeat(missing) ==> Inv(cfg, Elements(missing), s))
    ensures var t := Step(cfg, s, call);
      LooseInv(cfg, missing, t) && (NoRepeat(missing) ==> Inv(cfg, Elements(missing), t))
  {
    LooseStep(cfg, missing, s, call);
    if NoRepeat(missing) {
      StepInv(cfg, Elements(missing), s, call);
    }
  }

  lemma {:induction false} RequeueSnoc(s: Scheduler, order: seq<Chunk>, c: Chunk)
    requires c in RequeueAll(s, order).inFlight
    ensures var t := RequeueAll(s, order);
      RequeueAll(s, order + [c]) == Chunks.Fail(t, t.inFlight[c].peer, c)
    decreases |order|
  {
    if order == [] {
      assert [c][1..] == [];
      assert order + [c] == [c];
    } else {
      assert (order + [c])[1..] == order[1..] + [c];
      var s1 := if order[0] in s.inFlight then Chunks.Fail(s, s.inFlight[order[0]].peer, order[0]) else s;
      RequeueSnoc(s1, order[1..], c);
    }
  }
}
