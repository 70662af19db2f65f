/** Scheduled events fire exactly once, in the first block whose time reaches them. */
module EventRuns {
  import opened Basics
  import opened Messages
  import opened Events
  import opened Ledger
  import opened Chain
  import opened Runtime
  import opened History
  import opened Agreement
  import opened ChainAgreement

  /** The schedule stays clear of the built-in reward actions and ids. */
  ghost predicate PlainSchedule(schedule: Schedule) {
    forall e :: e in schedule ==> !BuiltIn(e.action) && e.id != BOOTSTRAP_REWARD_ID && e.id != MILESTONE_REWARD_ID
  }

  function Occurrences(events: seq<ScheduledEvent>, id: string): nat {
    if events == [] then 0 else (if events[0].id == id then 1 else 0) + Occurrences(events[1..], id)
  }

  function Fired(blocks: seq<Block>, id: string): nat {
    if blocks == [] then 0 else Fired(blocks[..|blocks| - 1], id) + Occurrences(blocks[|blocks| - 1].systemEvents, id)
  }

  /** Executing events marks exactly their ids and never marks one twice. */
  lemma {:induction false} EventsMark(c: Crypto, timestamp: u64, s: Treasury, events: seq<ScheduledEvent>, id: string)
    requires ApplyEvents(c, timestamp, s, events).Ok?
    ensures var t := ApplyEvents(c, timestamp, s, events).value;
      && (id in t.executed <==> id in s.executed || Occurrences(events, id) > 0)
      && Occurrences(events, id) == (if id in t.executed && id !in s.executed then 1 else 0)
    decreases |events|
  {
    if events != [] {
      var m := ApplyEvent(c, timestamp, s, events[0]).value;
      EventsMark(c, timestamp, m, events[1..], id);
    }
  }

  lemma {:induction false} OccursIff(events: seq<ScheduledEvent>, id: string)
    ensures Occurrences(events, id) > 0 <==> exists e :: e in events && e.id == id
  {
    if events != [] {
      OccursIff(events[1..], id);
      assert events == [events[0]] + events[1..];
    }
  }

  lemma {:induction false} ConfiguredMembers(events: seq<ScheduledEvent>)
    ensures forall e :: e in Configured(events) <==> e in events && !BuiltIn(e.action)
  {
    if events != [] {
      ConfiguredMembers(events[1..]);
      assert events == [events[0]] + events[1..];
    }
  }

  /** A block on schedule has nothing else under the id of a scheduled event. */
  lemma CarriesTheEvent(cfg: NodeConfig, chain: ChainState, b: Block, e: ScheduledEvent, x: ScheduledEvent)
    requires ScheduleValid(cfg.crypto, cfg.schedule) && PlainSchedule(cfg.schedule) && e in cfg.schedule
    requires chain.HasTip() && OnSchedule(cfg, chain, b) && x in b.systemEvents && x.id == e.id
    ensures x == e && IsDue(e, b.timestamp, chain.executed)
  {
    ConfiguredMembers(b.systemEvents);
    DueMembers(cfg.schedule, b.timestamp, chain.executed);
    assert x in Configured(b.systemEvents);
    DistinctPick(cfg.schedule, x, e);
  }

  /** A block on schedule carries a scheduled event exactly when the event is due. */
  lemma CarriesIffDue(cfg: NodeConfig, chain: ChainState, b: Block, e: ScheduledEvent)
    requires ScheduleValid(cfg.crypto, cfg.schedule) && PlainSchedule(cfg.schedule) && e in cfg.schedule
    requires chain.HasTip() && OnSchedule(cfg, chain, b)
    ensures Occurrences(b.systemEvents, e.id) > 0 <==> IsDue(e, b.timestamp, chain.executed)
  {
    OccursIff(b.systemEvents, e.id);
    ConfiguredMembers(b.systemEvents);
    DueMembers(cfg.schedule, b.timestamp, chain.executed);
    if x :| x in b.systemEvents && x.id == e.id {
      CarriesTheEvent(cfg, chain, b, e, x);
    }
    if IsDue(e, b.timestamp, chain.executed) {
      assert e in Configured(b.systemEvents);
    }
  }

  lemma AcceptedEvents(cfg: NodeConfig, s: ChainState, b: Block, id: string)
    requires s.HasTip() && AcceptBlock(cfg, s, b).Ok?
    ensures var t := AcceptBlock(cfg, s, b).value;
      && t.Tip() == b && b.timestamp >= s.Tip().timestamp && t.blocks == s.blocks + [b]
      && (id in t.executed <==> id in s.executed || Occurrences(b.systemEvents, id) > 0)
      && Occurrences(b.systemEvents, id) == (if id in t.executed && id !in s.executed then 1 else 0)
  {
    var a := ApplyTransfers(cfg.crypto, s.chainId, b.producer, Accounts(s.balances, s.nonces), b.transactions).value;
    EventsMark(cfg.crypto, b.timestamp, Treasury(a.balances, s.executed), b.systemEvents, id);
  }

  /** The event has been executed if and only if chain time has reached it, and the chain
      contains it once or not at all accordingly. */
  ghost predicate OnTime(s: ChainState, e: ScheduledEvent)
    requires s.HasTip()
  {
    && (e.id in s.executed <==> e.executeAt <= s.Tip().timestamp)
    && Fired(s.blocks, e.id) == (if e.executeAt <= s.Tip().timestamp then 1 else 0)
  }

  lemma OnTimeStep(cfg: NodeConfig, s: ChainState, b: Block, e: ScheduledEvent)
    requires ScheduleValid(cfg.crypto, cfg.schedule) && PlainSchedule(cfg.schedule) && e in cfg.schedule
    requires s.HasTip() && OnTime(s, e) && AcceptBlock(cfg, s, b).Ok?
    ensures OnTime(AcceptBlock(cfg, s, b).value, e)
  {
    CarriesIffDue(cfg, s, b, e);
    AcceptedEvents(cfg, s, b, e.id);
    var t := AcceptBlock(cfg, s, b).value;
    assert t.blocks[..|t.blocks| - 1] == s.blocks;
  }

  lemma {:induction false} OnTimeRun(cfg: NodeConfig, s: ChainState, blocks: seq<Block>, e: ScheduledEvent)
    requires ScheduleValid(cfg.crypto, cfg.schedule) && PlainSchedule(cfg.schedule) && e in cfg.schedule
    requires s.HasTip() && OnTime(s, e) && AcceptAll(cfg, s, blocks).Ok?
    ensures OnTime(AcceptAll(cfg, s, blocks).value, e)
    decreases |blocks|
  {
    if blocks != [] {
      OnTimeStep(cfg, s, blocks[0], e);
      OnTimeRun(cfg, AcceptBlock(cfg, s, blocks[0]).value, blocks[1..], e);
    }
  }

  /** Exactly once: on every chain a node can have grown from genesis, a scheduled event is
      executed if and only if the tip time has reached it, and it stands in exactly one block. */
  lemma ExactlyOnce(cfg: NodeConfig, g: ChainState, s: ChainState, e: ScheduledEvent)
    requires ScheduleValid(cfg.crypto, cfg.schedule) && PlainSchedule(cfg.schedule) && e in cfg.schedule
    requires Accepted(cfg, g, s)
    ensures e.id in s.executed <==> e.executeAt <= s.Tip().timestamp
    ensures Fired(s.blocks, e.id) == if e.executeAt <= s.Tip().timestamp then 1 else 0
  {
    assert g.blocks == [GenesisBlock(cfg.crypto)] && g.blocks[..0] == [];
    assert Fired(g.blocks, e.id) == 0;
    assert ValidEvent(cfg.crypto, e);
    OnTimeRun(cfg, g, s.blocks[1..], e);
  }

  /** The chain after its first n blocks. */
  lemma AcceptedPrefix(cfg: NodeConfig, g: ChainState, s: ChainState, n: nat) returns (p: ChainState)
    requires Accepted(cfg, g, s) && 1 <= n <= |s.blocks|
    ensures Accepted(cfg, g, p) && p.blocks == s.blocks[..n]
    ensures n < |s.blocks| ==> AcceptBlock(cfg, p, s.blocks[n]).Ok?
  {
    var front, rest := s.blocks[1..n], s.blocks[n..];
    assert s.blocks[1..] == front + rest;
    AcceptAppend(cfg, g, front, rest);
    p := AcceptAll(cfg, g, front).value;
    AcceptIsReplay(cfg, g, front);
    ReplayBlocks(cfg.crypto, g, front);
    assert p.blocks == g.blocks + front == s.blocks[..n];
    assert p.blocks[1..] == front;
  }

  /** The block that carries the event is the first whose time reaches it: time never goes
      back, and block i carries it exactly when the event falls due between its predecessor
      and itself. */
  lemma FiresInFirstBlock(cfg: NodeConfig, g: ChainState, s: ChainState, e: ScheduledEvent, i: nat)
    requires ScheduleValid(cfg.crypto, cfg.schedule) && PlainSchedule(cfg.schedule) && e in cfg.schedule
    requires Accepted(cfg, g, s) && 0 < i < |s.blocks|
    ensures s.blocks[i - 1].timestamp <= s.blocks[i].timestamp
    ensures Occurrences(s.blocks[i].systemEvents, e.id) ==
      if s.blocks[i - 1].timestamp < e.executeAt <= s.blocks[i].timestamp then 1 else 0
  {
    var p := AcceptedPrefix(cfg, g, s, i);
    var b := s.blocks[i];
    assert p.Tip() == s.blocks[i - 1];
    ExactlyOnce(cfg, g, p, e);
    AcceptedEvents(cfg, p, b, e.id);
    OnTimeStep(cfg, p, b, e);
  }

  /** Exactly once, for every honest node in every state of every run. */
  lemma ExactlyOnceOnRuns(n: NetConfig, run: seq<Net>, i: nat, id: Id, e: ScheduledEvent)
    requires Assumptions(n) && IsRun(n, run) && i < |run| && id in run[i] && id in n.nodes
    requires ScheduleValid(n.crypto, n.nodes[id].schedule) && PlainSchedule(n.nodes[id].schedule)
    requires e in n.nodes[id].schedule
    ensures var s := run[i][id].chain;
      && s.HasTip()
      && (e.id in s.executed <==> e.executeAt <= s.Tip().timestamp)
      && Fired(s.blocks, e.id) == (if e.executeAt <= s.Tip().timestamp then 1 else 0)
      && (forall k :: 0 < k < |s.blocks| ==> FiresAt(s.blocks, k, e))
  {
    RunHistory(n, run, i, id);
    var cfg, s := n.nodes[id], run[i][id].chain;
    ExactlyOnce(cfg, GenesisOf(n), s, e);
    forall k | 0 < k < |s.blocks| ensures FiresAt(s.blocks, k, e) {
      FiresInFirstBlock(cfg, GenesisOf(n), s, e, k);
    }
  }

  /** Block k is the first to reach the event if it carries it, and carries it if it is. */
  predicate FiresAt(blocks: seq<Block>, k: nat, e: ScheduledEvent)
    requires 0 < k < |blocks|
  {
    && blocks[k - 1].timestamp <= blocks[k].timestamp
    && Occurrences(blocks[k].systemEvents, e.id) ==
         (if blocks[k - 1].timestamp < e.executeAt <= blocks[k].timestamp then 1 else 0)
  }
}
