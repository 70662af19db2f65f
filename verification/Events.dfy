/** Scheduled system events (src/scheduled_event.rs): what a well-formed event is, which
    events are due, and in which order a block must carry them. */
module Events {
  import opened Basics
  import opened Sorting
  import opened Messages

  const MAX_CLOCK_DRIFT_SECONDS: nat := 30

  predicate HexDigit(c: char) {
    '0' <= c <= '9' || 'a' <= c <= 'f' || 'A' <= c <= 'F'
  }

  predicate IdChar(c: char) {
    '0' <= c <= '9' || 'a' <= c <= 'z' || 'A' <= c <= 'Z' || c == '-' || c == '_' || c == '.'
  }

  /** Unicode white space, as removed by `str::trim`. */
  predicate Blank(c: char) {
    var n := c as int;
    || 0x09 <= n <= 0x0D || n in {0x20, 0x85, 0xA0, 0x1680, 0x2028, 0x2029, 0x202F, 0x205F, 0x3000}
    || 0x2000 <= n <= 0x200A
  }

  predicate ValidAddress(a: string) {
    var digits := if |a| >= 2 && a[..2] == "0x" then a[2..] else a;
    |digits| == 40 && forall i :: 0 <= i < |digits| ==> HexDigit(digits[i])
  }

  predicate ValidRewardAddress(a: string) {
    |a| == 64 && forall i :: 0 <= i < |a| ==> HexDigit(a[i])
  }

  predicate ValidatorRegistrations(c: Crypto, regs: seq<ValidatorRegistration>) {
    && (forall i :: 0 <= i < |regs| ==> c.validatorRegistered(regs[i]))
    && (forall i, j :: 0 <= i < j < |regs| ==>
          regs[i].peerId != regs[j].peerId && regs[i].validatorId != regs[j].validatorId)
  }

  predicate NodeRegistrations(c: Crypto, regs: seq<NodeRewardRegistration>) {
    && (forall i :: 0 <= i < |regs| ==> ValidRewardAddress(regs[i].rewardAddress) && c.nodeRegistered(regs[i]))
    && (forall i, j :: 0 <= i < j < |regs| ==>
          regs[i].peerId != regs[j].peerId && regs[i].rewardAddress != regs[j].rewardAddress)
  }

  predicate ValidAction(c: Crypto, action: EventAction) {
    match action
    case TreasuryDistribution(recipients) =>
      && 1 <= |recipients| <= 10_000
      && (forall i :: 0 <= i < |recipients| ==> ValidAddress(recipients[i].address) && recipients[i].amount > 0)
    case PeriodicProducerReward(producer, reward) => ValidAddress(producer) && reward > 0
    case IncidentCompensation(incident, victim, compensation) =>
      && (exists i :: 0 <= i < |incident| && !Blank(incident[i])) && ValidAddress(victim) && compensation > 0
    case ProtocolCheckpoint(version) => version > 0
    case BootstrapValidatorReward(regs, amount) => |regs| == 4 && amount > 0 && ValidatorRegistrations(c, regs)
    case NodeMilestoneReward(regs, amount) => |regs| == 100 && amount > 0 && NodeRegistrations(c, regs)
  }

  predicate ValidEvent(c: Crypto, e: ScheduledEvent) {
    && 1 <= |e.id| <= 128
    && (forall i :: 0 <= i < |e.id| ==> IdChar(e.id[i]))
    && e.executeAt > 0
    && ValidAction(c, e.action)
  }

  /** The payments an action makes out of the foundation account, in order. */
  function Payments(action: EventAction): seq<EventPayment> {
    match action
    case TreasuryDistribution(recipients) => recipients
    case PeriodicProducerReward(producer, reward) => [EventPayment(producer, reward)]
    case IncidentCompensation(_, victim, compensation) => [EventPayment(victim, compensation)]
    case ProtocolCheckpoint(_) => []
    case BootstrapValidatorReward(regs, amount) =>
      seq(|regs|, i requires 0 <= i < |regs| => EventPayment(regs[i].validatorId, amount))
    case NodeMilestoneReward(regs, amount) =>
      seq(|regs|, i requires 0 <= i < |regs| => EventPayment(regs[i].rewardAddress, amount))
  }

  // ---------- The schedule ----------

  type Schedule = seq<ScheduledEvent>

  ghost predicate DistinctEventIds(events: seq<ScheduledEvent>) {
    forall i, j :: 0 <= i < j < |events| ==> events[i].id != events[j].id
  }

  ghost predicate ScheduleValid(c: Crypto, schedule: Schedule) {
    && (forall e :: e in schedule ==> ValidEvent(c, e))
    && DistinctEventIds(schedule)
  }

  /** `EventSchedule::validate`. */
  method ValidateSchedule(c: Crypto, schedule: Schedule) returns (ok: bool)
    ensures ok <==> ScheduleValid(c, schedule)
  {
    var ids: set<string> := {};
    for i := 0 to |schedule|
      invariant forall j :: 0 <= j < i ==> ValidEvent(c, schedule[j])
      invariant forall j, k :: 0 <= j < k < i ==> schedule[j].id != schedule[k].id
      invariant forall id :: id in ids <==> exists j :: 0 <= j < i && schedule[j].id == id
    {
      if !ValidEvent(c, schedule[i]) {
        assert schedule[i] in schedule;
        return false;
      }
      if schedule[i].id in ids {
        return false;
      }
      ids := ids + {schedule[i].id};
    }
    return true;
  }

  predicate Before(a: ScheduledEvent, b: ScheduledEvent) {
    a.executeAt < b.executeAt || (a.executeAt == b.executeAt && TextLe(a.id, b.id))
  }

  lemma BeforeOrder()
    ensures TotalPreorder(Before)
    ensures forall a, b :: Before(a, b) && Before(b, a) ==> a.id == b.id && a.executeAt == b.executeAt
  {
    TextOrder();
  }

  predicate IsDue(e: ScheduledEvent, timestamp: u64, executed: set<string>) {
    e.executeAt <= timestamp && e.id !in executed
  }

  function Pending(schedule: Schedule, timestamp: u64, executed: set<string>): Schedule {
    if schedule == [] then []
    else if IsDue(schedule[0], timestamp, executed) then [schedule[0]] + Pending(schedule[1..], timestamp, executed)
    else Pending(schedule[1..], timestamp, executed)
  }

  /** `EventSchedule::due`: the unexecuted events that have come of age, oldest first. */
  function Due(schedule: Schedule, timestamp: u64, executed: set<string>): seq<ScheduledEvent> {
    Sort(Before, Pending(schedule, timestamp, executed))
  }

  lemma {:induction false} PendingMembers(schedule: Schedule, timestamp: u64, executed: set<string>)
    ensures forall e ::
      e in Pending(schedule, timestamp, executed) <==> e in schedule && IsDue(e, timestamp, executed)
  {
    if schedule != [] {
      PendingMembers(schedule[1..], timestamp, executed);
      assert schedule == [schedule[0]] + schedule[1..];
    }
  }

  lemma {:induction false} PendingDistinct(schedule: Schedule, timestamp: u64, executed: set<string>)
    requires DistinctEventIds(schedule)
    ensures DistinctEventIds(Pending(schedule, timestamp, executed))
  {
    if schedule != [] {
      var rest := Pending(schedule[1..], timestamp, executed);
      PendingDistinct(schedule[1..], timestamp, executed);
      PendingMembers(schedule[1..], timestamp, executed);
      forall k | 0 <= k < |rest| ensures rest[k].id != schedule[0].id {
        assert rest[k] in schedule[1..];
      }
    }
  }

  lemma DueMembers(schedule: Schedule, timestamp: u64, executed: set<string>)
    ensures forall e ::
      e in Due(schedule, timestamp, executed) <==> e in schedule && IsDue(e, timestamp, executed)
    ensures var due := Due(schedule, timestamp, executed);
      forall i, j :: 0 <= i < j < |due| ==>
        due[i].executeAt < due[j].executeAt || (due[i].executeAt == due[j].executeAt && TextLe(due[i].id, due[j].id))
  {
    BeforeOrder();
    SortFacts(Before, Pending(schedule, timestamp, executed));
    PendingMembers(schedule, timestamp, executed);
  }

  lemma DistinctPick(events: seq<ScheduledEvent>, a: ScheduledEvent, b: ScheduledEvent)
    requires DistinctEventIds(events) && a in events && b in events && a.id == b.id
    ensures a == b
  {
  }

  /** Two nodes that list the same events in different orders demand the same block. */
  lemma DueIgnoresListing(a: Schedule, b: Schedule, timestamp: u64, executed: set<string>)
    requires DistinctEventIds(a) && DistinctEventIds(b)
    requires forall e :: e in a <==> e in b
    ensures Due(a, timestamp, executed) == Due(b, timestamp, executed)
  {
    var p, q := Pending(a, timestamp, executed), Pending(b, timestamp, executed);
    PendingMembers(a, timestamp, executed);
    PendingMembers(b, timestamp, executed);
    PendingDistinct(a, timestamp, executed);
    PendingDistinct(b, timestamp, executed);
    BeforeOrder();
    forall e ensures multiset(p)[e] == multiset(q)[e] {
      DistinctCountOne(p, e);
      DistinctCountOne(q, e);
    }
    assert multiset(p) == multiset(q);
    forall x, y | x in p && y in p && Before(x, y) && Before(y, x) ensures x == y {
      DistinctPick(p, x, y);
    }
    SortIgnoresOrder(Before, p, q);
  }

  lemma {:induction false} DistinctCountOne(events: seq<ScheduledEvent>, e: ScheduledEvent)
    requires DistinctEventIds(events)
    ensures multiset(events)[e] == if e in events then 1 else 0
  {
    if events != [] {
      assert events == [events[0]] + events[1..];
      DistinctCountOne(events[1..], e);
      if e == events[0] {
        assert e !in events[1..];
      }
    }
  }
}
