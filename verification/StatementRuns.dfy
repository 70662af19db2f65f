/** Account statements on the chains of a run, and what a scheduled event has paid there. */
module StatementRuns {
  import opened Basics
  import opened Sorting
  import opened Messages
  import opened Events
  import opened Ledger
  import opened Chain
  import opened Runtime
  import opened History
  import opened Agreement
  import opened ChainAgreement
  import opened EventRuns
  import opened Statements

  // ---------- The share of one event ----------

  /** What the events under an id have added to a balance. */
  function EventsBy(events: seq<ScheduledEvent>, id: string, a: Address): int {
    if events == [] then 0
    else (if events[0].id == id then ActionEffect(events[0].action, a) else 0) + EventsBy(events[1..], id, a)
  }

  function PaidBy(blocks: seq<Block>, id: string, a: Address): int {
    if blocks == [] then 0 else EventsBy(blocks[0].systemEvents, id, a) + PaidBy(blocks[1..], id, a)
  }

  function EventsApart(events: seq<ScheduledEvent>, id: string, a: Address): int {
    if events == [] then 0
    else (if events[0].id == id then 0 else ActionEffect(events[0].action, a)) + EventsApart(events[1..], id, a)
  }

  /** The statement without the events under an id. */
  function EffectApart(blocks: seq<Block>, id: string, a: Address): int {
    if blocks == [] then 0
    else
      TransfersEffect(blocks[0].producer, blocks[0].transactions, a) + EventsApart(blocks[0].systemEvents, id, a)
      + EffectApart(blocks[1..], id, a)
  }

  lemma {:induction false} EventsSplit(events: seq<ScheduledEvent>, id: string, a: Address)
    ensures EventsEffect(events, a) == EventsBy(events, id, a) + EventsApart(events, id, a)
  {
    if events != [] {
      EventsSplit(events[1..], id, a);
    }
  }

  lemma {:induction false} EffectSplit(blocks: seq<Block>, id: string, a: Address)
    ensures ChainEffect(blocks, a) == PaidBy(blocks, id, a) + EffectApart(blocks, id, a)
  {
    if blocks != [] {
      EventsSplit(blocks[0].systemEvents, id, a);
      EffectSplit(blocks[1..], id, a);
    }
  }

  lemma {:induction false} PaidBySnoc(blocks: seq<Block>, b: Block, id: string, a: Address)
    ensures PaidBy(blocks + [b], id, a) == PaidBy(blocks, id, a) + EventsBy(b.systemEvents, id, a)
  {
    if blocks == [] {
      assert (blocks + [b])[1..] == [];
    } else {
      assert (blocks + [b])[1..] == blocks[1..] + [b];
      PaidBySnoc(blocks[1..], b, id, a);
    }
  }

  lemma {:induction false} EventsByCount(events: seq<ScheduledEvent>, e: ScheduledEvent, a: Address)
    requires forall x :: x in events && x.id == e.id ==> x == e
    ensures Occurrences(events, e.id) == 0 ==> EventsBy(events, e.id, a) == 0
    ensures Occurrences(events, e.id) == 1 ==> EventsBy(events, e.id, a) == ActionEffect(e.action, a)
  {
    if events != [] {
      assert events[0] in events;
      EventsByCount(events[1..], e, a);
    }
  }

  // ---------- Paid exactly once ----------

  ghost predicate PaidOnTime(s: ChainState, e: ScheduledEvent, a: Address)
    requires s.HasTip()
  {
    && OnTime(s, e)
    && PaidBy(s.blocks, e.id, a) == (if e.executeAt <= s.Tip().timestamp then ActionEffect(e.action, a) else 0)
  }

  lemma BlockPays(cfg: NodeConfig, s: ChainState, b: Block, e: ScheduledEvent, a: Address)
    requires ScheduleValid(cfg.crypto, cfg.schedule) && PlainSchedule(cfg.schedule) && e in cfg.schedule
    requires s.HasTip() && OnSchedule(cfg, s, b)
    ensures Occurrences(b.systemEvents, e.id) == 0 ==> EventsBy(b.systemEvents, e.id, a) == 0
    ensures Occurrences(b.systemEvents, e.id) == 1 ==> EventsBy(b.systemEvents, e.id, a) == ActionEffect(e.action, a)
  {
    forall x | x in b.systemEvents && x.id == e.id ensures x == e {
      CarriesTheEvent(cfg, s, b, e, x);
    }
    EventsByCount(b.systemEvents, e, a);
  }

  lemma PaidOnTimeStep(cfg: NodeConfig, s: ChainState, b: Block, e: ScheduledEvent, a: Address)
    requires ScheduleValid(cfg.crypto, cfg.schedule) && PlainSchedule(cfg.schedule) && e in cfg.schedule
    requires s.HasTip() && PaidOnTime(s, e, a) && AcceptBlock(cfg, s, b).Ok?
    ensures PaidOnTime(AcceptBlock(cfg, s, b).value, e, a)
  {
    OnTimeStep(cfg, s, b, e);
    AcceptedEvents(cfg, s, b, e.id);
    BlockPays(cfg, s, b, e, a);
    PaidBySnoc(s.blocks, b, e.id, a);
  }

  lemma {:induction false} PaidOnTimeRun(cfg: NodeConfig, s: ChainState, blocks: seq<Block>, e: ScheduledEvent,
                                         a: Address)
    requires ScheduleValid(cfg.crypto, cfg.schedule) && PlainSchedule(cfg.schedule) && e in cfg.schedule
    requires s.HasTip() && PaidOnTime(s, e, a) && AcceptAll(cfg, s, blocks).Ok?
    ensures PaidOnTime(AcceptAll(cfg, s, blocks).value, e, a)
    decreases |blocks|
  {
    if blocks != [] {
      PaidOnTimeStep(cfg, s, blocks[0], e, a);
      PaidOnTimeRun(cfg, AcceptBlock(cfg, s, blocks[0]).value, blocks[1..], e, a);
    }
  }

  /** On every chain a node can have grown from genesis, the balance of every address is its
      initial balance plus what the transfers and events of the chain say, and a scheduled
      event has contributed what its action names once the tip time has reached it, and
      nothing before. */
  lemma PaidOnce(cfg: NodeConfig, g: ChainState, s: ChainState, e: ScheduledEvent, a: Address)
    requires ScheduleValid(cfg.crypto, cfg.schedule) && PlainSchedule(cfg.schedule) && e in cfg.schedule
    requires Accepted(cfg, g, s)
    ensures PaidBy(s.blocks, e.id, a) == if e.executeAt <= s.Tip().timestamp then ActionEffect(e.action, a) else 0
    ensures BalanceOf(s.balances, a) == BalanceOf(g.initial, a) + EffectApart(s.blocks, e.id, a)
      + (if e.executeAt <= s.Tip().timestamp then ActionEffect(e.action, a) else 0)
  {
    assert g.blocks == [GenesisBlock(cfg.crypto)] && g.blocks[..0] == [] && g.blocks[1..] == [];
    assert Fired(g.blocks, e.id) == 0;
    assert ValidEvent(cfg.crypto, e);
    PaidOnTimeRun(cfg, g, s.blocks[1..], e, a);
    ChainStatement(cfg, g, s, a);
    EffectSplit(s.blocks, e.id, a);
  }

  /** The statement of an account over a whole chain. */
  lemma ChainStatement(cfg: NodeConfig, g: ChainState, s: ChainState, a: Address)
    requires Accepted(cfg, g, s)
    ensures BalanceOf(s.balances, a) == BalanceOf(g.initial, a) + ChainEffect(s.blocks, a)
    ensures NonceOf(s.nonces, a) == CountUp(0, Sent(AllTransfers(s.blocks), a))
  {
    AcceptIsReplay(cfg, g, s.blocks[1..]);
    Statement(cfg.crypto, g, s.blocks[1..], a);
    assert AllTransfers(s.blocks) == AllTransfers(s.blocks[1..]);
  }

  /** Both for every honest node in every state of every run. */
  lemma StatementOnRuns(n: NetConfig, run: seq<Net>, i: nat, id: Id, a: Address)
    requires Assumptions(n) && IsRun(n, run) && i < |run| && id in n.nodes
    ensures id in run[i]
    ensures var s := run[i][id].chain;
      && BalanceOf(s.balances, a) == BalanceOf(n.initial, a) + ChainEffect(s.blocks, a)
      && NonceOf(s.nonces, a) == CountUp(0, Sent(AllTransfers(s.blocks), a))
  {
    RunHistory(n, run, i, id);
    ChainStatement(n.nodes[id], GenesisOf(n), run[i][id].chain, a);
  }

  lemma PaidOnceOnRuns(n: NetConfig, run: seq<Net>, i: nat, id: Id, e: ScheduledEvent, a: Address)
    requires Assumptions(n) && IsRun(n, run) && i < |run| && id in n.nodes
    requires ScheduleValid(n.crypto, n.nodes[id].schedule) && PlainSchedule(n.nodes[id].schedule)
    requires e in n.nodes[id].schedule
    ensures id in run[i] && run[i][id].chain.HasTip()
    ensures var s := run[i][id].chain;
      BalanceOf(s.balances, a) == BalanceOf(n.initial, a) + EffectApart(s.blocks, e.id, a)
        + (if e.executeAt <= s.Tip().timestamp then ActionEffect(e.action, a) else 0)
  {
    RunHistory(n, run, i, id);
    PaidOnce(n.nodes[id], GenesisOf(n), run[i][id].chain, e, a);
  }

  // ---------- Built-in rewards ----------

  ghost predicate ExecutedOnce(s: ChainState, id: string) {
    Fired(s.blocks, id) == if id in s.executed then 1 else 0
  }

  lemma {:induction false} ExecutedOnceRun(cfg: NodeConfig, s: ChainState, blocks: seq<Block>, id: string)
    requires s.HasTip() && ExecutedOnce(s, id) && AcceptAll(cfg, s, blocks).Ok?
    ensures ExecutedOnce(AcceptAll(cfg, s, blocks).value, id)
    decreases |blocks|
  {
    if blocks != [] {
      AcceptedEvents(cfg, s, blocks[0], id);
      var t := AcceptBlock(cfg, s, blocks[0]).value;
      assert t.blocks[..|t.blocks| - 1] == s.blocks;
      ExecutedOnceRun(cfg, t, blocks[1..], id);
    }
  }

  /** No id of any event, scheduled or built in, appears twice on a chain. */
  lemma NoEventTwice(cfg: NodeConfig, g: ChainState, s: ChainState, id: string)
    requires Accepted(cfg, g, s)
    ensures Fired(s.blocks, id) == if id in s.executed then 1 else 0
  {
    assert g.blocks == [GenesisBlock(cfg.crypto)] && g.blocks[..0] == [];
    assert Fired(g.blocks, id) == 0;
    ExecutedOnceRun(cfg, g, s.blocks[1..], id);
  }

  /** How many of the ids are spellings of an address. */
  function IdsAt(ids: seq<Id>, a: Address): nat {
    if ids == [] then 0 else (if Normalize(ids[0]) == a then 1 else 0) + IdsAt(ids[1..], a)
  }

  lemma {:induction false} InsertIds(id: Id, ids: seq<Id>, a: Address)
    ensures IdsAt(Insert(TextLe, id, ids), a) == IdsAt([id] + ids, a)
  {
    assert ([id] + ids)[1..] == ids;
    if ids != [] && !TextLe(id, ids[0]) {
      InsertIds(id, ids[1..], a);
      var r := Insert(TextLe, id, ids[1..]);
      assert ([ids[0]] + r)[1..] == r && ([id] + ids[1..])[1..] == ids[1..];
    }
  }

  lemma {:induction false} SortIds(ids: seq<Id>, a: Address)
    ensures IdsAt(Sort(TextLe, ids), a) == IdsAt(ids, a)
  {
    if ids != [] {
      SortIds(ids[1..], a);
      InsertIds(ids[0], Sort(TextLe, ids[1..]), a);
      assert ([ids[0]] + Sort(TextLe, ids[1..]))[1..] == Sort(TextLe, ids[1..]);
    }
  }

  lemma {:induction false} RegisteredAt(regs: seq<ValidatorRegistration>, a: Address)
    ensures IdsAt(RegisteredIds(regs), a) == ValidatorsAt(regs, a)
  {
    if regs != [] {
      RegisteredAt(regs[1..], a);
      assert RegisteredIds(regs)[1..] == RegisteredIds(regs[1..]);
    }
  }

  /** A bootstrap reward in a block on schedule goes to the active validators and nobody else:
      each address is owed one reward per validator it stands for. */
  lemma BootstrapPaysValidators(cfg: NodeConfig, chain: ChainState, b: Block, e: ScheduledEvent, a: Address)
    requires chain.HasTip() && OnSchedule(cfg, chain, b)
    requires e in b.systemEvents && e.action.BootstrapValidatorReward?
    ensures e.id == BOOTSTRAP_REWARD_ID
    ensures multiset(RegisteredIds(e.action.validators)) == multiset(ValidatorIds(cfg.validators))
    ensures Owed(e.action, a) == IdsAt(ValidatorIds(cfg.validators), a) * e.action.perValidator
  {
    assert BuiltInOk(cfg.crypto, cfg.validators, chain.executed, e);
    SameIds(e.action.validators, cfg.validators, a);
  }

  lemma SameIds(regs: seq<ValidatorRegistration>, validators: seq<Validator>, a: Address)
    requires Sort(TextLe, RegisteredIds(regs)) == Sort(TextLe, ValidatorIds(validators))
    ensures multiset(RegisteredIds(regs)) == multiset(ValidatorIds(validators))
    ensures ValidatorsAt(regs, a) == IdsAt(ValidatorIds(validators), a)
  {
    TextOrder();
    SortFacts(TextLe, RegisteredIds(regs));
    SortFacts(TextLe, ValidatorIds(validators));
    SortIds(RegisteredIds(regs), a);
    SortIds(ValidatorIds(validators), a);
    RegisteredAt(regs, a);
  }

  /** On every run, a bootstrap reward on an honest chain is the only one there, and it pays
      the validators. */
  lemma BootstrapOnRuns(n: NetConfig, run: seq<Net>, i: nat, id: Id, k: nat, e: ScheduledEvent, a: Address)
    requires Assumptions(n) && IsRun(n, run) && i < |run| && id in n.nodes && id in run[i]
    requires 0 < k < |run[i][id].chain.blocks| && e in run[i][id].chain.blocks[k].systemEvents
    requires e.action.BootstrapValidatorReward?
    ensures Fired(run[i][id].chain.blocks, e.id) == 1 && e.id == BOOTSTRAP_REWARD_ID
    ensures Owed(e.action, a) == IdsAt(ValidatorIds(n.validators), a) * e.action.perValidator
  {
    RunHistory(n, run, i, id);
    BootstrapOnChain(n.nodes[id], GenesisOf(n), run[i][id].chain, k, e, a);
  }

  lemma BootstrapOnChain(cfg: NodeConfig, g: ChainState, s: ChainState, k: nat, e: ScheduledEvent, a: Address)
    requires Accepted(cfg, g, s) && 0 < k < |s.blocks| && e in s.blocks[k].systemEvents
    requires e.action.BootstrapValidatorReward?
    ensures Fired(s.blocks, e.id) == 1 && e.id == BOOTSTRAP_REWARD_ID
    ensures Owed(e.action, a) == IdsAt(ValidatorIds(cfg.validators), a) * e.action.perValidator
  {
    var p := AcceptedPrefix(cfg, g, s, k);
    BootstrapPaysValidators(cfg, p, s.blocks[k], e, a);
    NoEventTwice(cfg, g, s, e.id);
    OccursIff(s.blocks[k].systemEvents, e.id);
    FiredAtLeast(s.blocks, k, e.id);
  }

  lemma {:induction false} FiredAtLeast(blocks: seq<Block>, k: nat, id: string)
    requires k < |blocks|
    ensures Fired(blocks, id) >= Occurrences(blocks[k].systemEvents, id)
    decreases |blocks|
  {
    if k < |blocks| - 1 {
      FiredAtLeast(blocks[..|blocks| - 1], k, id);
    }
  }
}
