/**
 The task machine of the aggregator service over whole runs. Submitting a task and
 collecting responses happen between ticks, in code that is not part of this model.
 */
module TaskRuns {
  import opened Basics
  import opened Folds

  const COMPLETED: uint32 := 3
  const FAILED: uint32 := 4

  datatype Response = Response(payload: string, valid: bool)

  type Responses = map<string, Response>

  datatype Task = Task(deadline: uint64, threshold: uint32, status: uint32, responses: Responses, consensus: bool)

  type Tasks = map<uint32, Task>

  /** The service: its tasks and the two counters a tick moves. */
  datatype Service = Service(tasks: Tasks, completed: int, failed: int)

  function ValidBit(r: Response): int {
    if r.valid then 1 else 0
  }

  ghost function ValidResponses(responses: Responses): int {
    SumOver(responses, ValidBit)
  }

  predicate Expired(t: Task, now: uint64) {
    now > t.deadline
  }

  ghost predicate HasQuorum(t: Task) {
    ValidResponses(t.responses) >= t.threshold
  }

  /** The task reaches consensus at a tick. */
  ghost predicate ReachesConsensus(t: Task, now: uint64) {
    !Expired(t, now) && !t.consensus && HasQuorum(t)
  }

  ghost function TaskAfterTick(t: Task, now: uint64): Task {
    if Expired(t, now) then t.(status := FAILED)
    else if ReachesConsensus(t, now) then t.(status := COMPLETED, consensus := true)
    else t
  }

  // ---- Counting tasks

  ghost function ConsensusBit(t: Task): int {
    if t.consensus then 1 else 0
  }

  ghost function ReachesBit(now: uint64): Task -> int {
    (t: Task) => if ReachesConsensus(t, now) then 1 else 0
  }

  ghost function ExpiredBit(now: uint64): Task -> int {
    (t: Task) => if Expired(t, now) then 1 else 0
  }

  ghost function TasksAfterTick(tasks: Tasks, now: uint64): Tasks {
    map id | id in tasks :: TaskAfterTick(tasks[id], now)
  }

  ghost function AfterTick(s: Service, now: uint64): Service {
    Service(
      TasksAfterTick(s.tasks, now),
      s.completed + SumOver(s.tasks, ReachesBit(now)),
      s.failed + SumOver(s.tasks, ExpiredBit(now)))
  }

  // ---- Visiting one task at a time

  ghost function AfterVisit(s: Service, id: uint32, now: uint64): Service
    requires id in s.tasks
  {
    var t := s.tasks[id];
    Service(s.tasks[id := TaskAfterTick(t, now)], s.completed + ReachesBit(now)(t), s.failed + ExpiredBit(now)(t))
  }

  /** A tick under way: the tasks in `rest` still wait, the others have been visited. */
  ghost predicate Midway(before: Service, rest: Tasks, s: Service, now: uint64) {
    && s.tasks.Keys == before.tasks.Keys >= rest.Keys
    && (forall id :: id in rest ==> rest[id] == before.tasks[id] == s.tasks[id])
    && (forall id :: id in s.tasks && id !in rest ==> s.tasks[id] == TaskAfterTick(before.tasks[id], now))
    && s.completed + SumOver(rest, ReachesBit(now)) == before.completed + SumOver(before.tasks, ReachesBit(now))
    && s.failed + SumOver(rest, ExpiredBit(now)) == before.failed + SumOver(before.tasks, ExpiredBit(now))
  }

  lemma MidwayStep(before: Service, rest: Tasks, s: Service, id: uint32, now: uint64)
    requires Midway(before, rest, s, now) && id in rest
    ensures Midway(before, rest - {id}, AfterVisit(s, id, now), now)
  {
    SumOverRemove(rest, ReachesBit(now), id);
    SumOverRemove(rest, ExpiredBit(now), id);
  }

  /** Whatever the order of the visits, they end in the state after the tick. */
  lemma MidwayEnd(before: Service, rest: Tasks, s: Service, now: uint64)
    requires Midway(before, rest, s, now) && rest.Keys == {}
    ensures s == AfterTick(before, now)
  {
    assert s.tasks == TasksAfterTick(before.tasks, now);
  }

  // ---- Runs

  datatype Event =
    | Submit(id: uint32, task: Task)
    | Respond(id: uint32, responses: Responses)
    | Tick(now: uint64)

  /** Ids are not reused; a new task has no consensus and is neither completed nor failed. */
  ghost predicate Enabled(s: Service, e: Event) {
    match e
    case Submit(id, task) => id !in s.tasks && !task.consensus && task.status != COMPLETED && task.status != FAILED
    case Respond(id, _) => id in s.tasks
    case Tick(_) => true
  }

  ghost function Next(s: Service, e: Event): Service {
    match e
    case Submit(id, task) => s.(tasks := s.tasks[id := task])
    case Respond(id, responses) =>
      if id in s.tasks then s.(tasks := s.tasks[id := s.tasks[id].(responses := responses)]) else s
    case Tick(now) => AfterTick(s, now)
  }

  /** The states a run goes through, from a service without tasks. */
  ghost predicate IsRun(states: seq<Service>, events: seq<Event>) {
    && |states| == |events| + 1
    && states[0] == Service(map[], 0, 0)
    && forall i :: 0 <= i < |events| ==> Enabled(states[i], events[i]) && states[i + 1] == Next(states[i], events[i])
  }

  /** Later ticks do not read an earlier clock. */
  ghost predicate ClockAdvances(events: seq<Event>) {
    forall i, j :: 0 <= i < j < |events| && events[i].Tick? && events[j].Tick? ==> events[i].now <= events[j].now
  }

  /** Event `i` is a tick that finds the task past its deadline. */
  ghost predicate TickSeesExpired(states: seq<Service>, events: seq<Event>, i: int, id: uint32)
    requires |states| == |events| + 1 && 0 <= i < |events|
  {
    events[i].Tick? && id in states[i].tasks && events[i].now > states[i].tasks[id].deadline
  }

  /** Event `i` is a tick that finds the task in time and with enough operators whose response is valid. */
  ghost predicate TickSeesQuorum(states: seq<Service>, events: seq<Event>, i: int, id: uint32)
    requires |states| == |events| + 1 && 0 <= i < |events|
  {
    && events[i].Tick? && id in states[i].tasks
    && var t := states[i].tasks[id];
       events[i].now <= t.deadline && |set op | op in t.responses && t.responses[op].valid| >= t.threshold
  }

  // ---- Counting as cardinality

  lemma QuorumCounts(t: Task)
    ensures HasQuorum(t) <==> |set op | op in t.responses && t.responses[op].valid| >= t.threshold
  {
    CountIsCardinality(t.responses, ValidBit, set op | op in t.responses && t.responses[op].valid);
  }

  lemma ConsensusCounts(tasks: Tasks)
    ensures SumOver(tasks, ConsensusBit) == |set id: uint32 | id in tasks && tasks[id].consensus|
  {
    CountIsCardinality(tasks, ConsensusBit, set id: uint32 | id in tasks && tasks[id].consensus);
  }

  lemma ExpiredCounts(tasks: Tasks, now: uint64)
    ensures SumOver(tasks, ExpiredBit(now)) == |set id: uint32 | id in tasks && now > tasks[id].deadline|
  {
    CountIsCardinality(tasks, ExpiredBit(now), set id: uint32 | id in tasks && now > tasks[id].deadline);
  }

  // ---- What every step keeps

  /** A known task stays known, with its deadline, its threshold and any consensus. */
  lemma OneStep(s: Service, e: Event, id: uint32)
    requires Enabled(s, e) && id in s.tasks
    ensures id in Next(s, e).tasks
    ensures var t, u := s.tasks[id], Next(s, e).tasks[id];
            && u.deadline == t.deadline && u.threshold == t.threshold
            && (t.consensus ==> u.consensus)
            && (u.consensus && !t.consensus ==> e.Tick? && ReachesConsensus(t, e.now))
  {
  }

  lemma {:induction false} ConsensusNeverReverts(states: seq<Service>, events: seq<Event>, i: nat, j: nat, id: uint32)
    requires IsRun(states, events) && i <= j <= |events| && id in states[i].tasks
    ensures id in states[j].tasks
    ensures states[j].tasks[id].deadline == states[i].tasks[id].deadline
    ensures states[j].tasks[id].threshold == states[i].tasks[id].threshold
    ensures states[i].tasks[id].consensus ==> states[j].tasks[id].consensus
    decreases j - i
  {
    if i < j {
      ConsensusNeverReverts(states, events, i, j - 1, id);
      OneStep(states[j - 1], events[j - 1], id);
    }
  }

  /** How a tick moves the number of tasks with consensus. */
  lemma {:induction false} TickCountsConsensus(tasks: Tasks, now: uint64)
    ensures SumOver(TasksAfterTick(tasks, now), ConsensusBit) ==
            SumOver(tasks, ConsensusBit) + SumOver(tasks, ReachesBit(now))
    decreases tasks.Keys
  {
    if tasks.Keys != {} {
      var id :| id in tasks;
      SumOverRemove(tasks, ConsensusBit, id);
      SumOverRemove(tasks, ReachesBit(now), id);
      SumOverRemove(TasksAfterTick(tasks, now), ConsensusBit, id);
      assert TasksAfterTick(tasks, now) - {id} == TasksAfterTick(tasks - {id}, now);
      TickCountsConsensus(tasks - {id}, now);
    } else {
      assert TasksAfterTick(tasks, now).Keys == {};
    }
  }

  lemma {:induction false} CompletedCounts(states: seq<Service>, events: seq<Event>, k: nat)
    requires IsRun(states, events) && k <= |events|
    ensures states[k].completed == SumOver(states[k].tasks, ConsensusBit)
  {
    if k > 0 {
      CompletedCounts(states, events, k - 1);
      var before := states[k - 1].tasks;
      match events[k - 1]
      case Submit(id, task) => SumOverUpdate(before, ConsensusBit, id, task);
      case Respond(id, responses) => SumOverUpdate(before, ConsensusBit, id, before[id].(responses := responses));
      case Tick(now) => TickCountsConsensus(before, now);
    }
  }

  /** At every moment the completed counter is the number of tasks with consensus. */
  lemma CompletedCountsConsensus(states: seq<Service>, events: seq<Event>, k: nat)
    requires IsRun(states, events) && k <= |events|
    ensures states[k].completed == |set id: uint32 | id in states[k].tasks && states[k].tasks[id].consensus|
  {
    CompletedCounts(states, events, k);
    ConsensusCounts(states[k].tasks);
  }

  /** The tasks past their deadline at each tick of the first `k` events, counted anew at every one. */
  ghost function ExpiriesSeen(states: seq<Service>, events: seq<Event>, k: nat): int
    requires |states| == |events| + 1 && k <= |events|
  {
    if k == 0 then 0
    else if !events[k - 1].Tick? then ExpiriesSeen(states, events, k - 1)
    else
      var tasks, now := states[k - 1].tasks, events[k - 1].now;
      ExpiriesSeen(states, events, k - 1) + |set id: uint32 | id in tasks && now > tasks[id].deadline|
  }

  /** The failed counter counts a task again at every tick that finds it expired. */
  lemma {:induction false} FailedCountsExpiries(states: seq<Service>, events: seq<Event>, k: nat)
    requires IsRun(states, events) && k <= |events|
    ensures states[k].failed == ExpiriesSeen(states, events, k)
  {
    if k > 0 {
      FailedCountsExpiries(states, events, k - 1);
      if events[k - 1].Tick? { ExpiredCounts(states[k - 1].tasks, events[k - 1].now); }
    }
  }

  // ---- The history decides

  /**
   Consensus holds exactly when some earlier tick found the task in time and with enough
   valid responses.
   */
  lemma {:induction false} ConsensusDecided(states: seq<Service>, events: seq<Event>, k: nat, id: uint32)
    requires IsRun(states, events) && k <= |events| && id in states[k].tasks
    ensures states[k].tasks[id].consensus <==> exists i :: 0 <= i < k && TickSeesQuorum(states, events, i, id)
  {
    if k > 0 {
      var s, e := states[k - 1], events[k - 1];
      if id in s.tasks {
        ConsensusDecided(states, events, k - 1, id);
        OneStep(s, e, id);
        QuorumCounts(s.tasks[id]);
        if TickSeesQuorum(states, events, k - 1, id) {
          assert states[k].tasks[id].consensus;
        }
        if states[k].tasks[id].consensus && !s.tasks[id].consensus {
          assert TickSeesQuorum(states, events, k - 1, id);
        }
      } else {
        NotSeenBeforeSubmitted(states, events, k - 1, id);
      }
    }
  }

  lemma NotSeenBeforeSubmitted(states: seq<Service>, events: seq<Event>, k: nat, id: uint32)
    requires IsRun(states, events) && k <= |events| && id !in states[k].tasks
    ensures forall i :: 0 <= i < k ==> id !in states[i].tasks
  {
    forall i | 0 <= i < k ensures id !in states[i].tasks {
      if id in states[i].tasks { ConsensusNeverReverts(states, events, i, k, id); }
    }
  }

  /** With an advancing clock an expired task stays expired at every later tick. */
  lemma ExpiryLasts(states: seq<Service>, events: seq<Event>, i: nat, j: nat, id: uint32)
    requires IsRun(states, events) && ClockAdvances(events) && i <= j < |events|
    requires TickSeesExpired(states, events, i, id) && events[j].Tick?
    ensures TickSeesExpired(states, events, j, id)
  {
    ConsensusNeverReverts(states, events, i, j, id);
  }

  /** Once a tick has seen a task past its deadline, it is failed for ever and gains no consensus. */
  lemma {:induction false} ExpiredForEver(states: seq<Service>, events: seq<Event>, i: nat, j: nat, id: uint32)
    requires IsRun(states, events) && ClockAdvances(events) && i < j <= |events|
    requires TickSeesExpired(states, events, i, id)
    ensures id in states[j].tasks && states[j].tasks[id].status == 4
    ensures states[j].tasks[id].consensus == states[i].tasks[id].consensus
    decreases j - i
  {
    if i + 1 < j {
      ExpiredForEver(states, events, i, j - 1, id);
      if events[j - 1].Tick? { ExpiryLasts(states, events, i, j - 1, id); }
    }
  }

  /**
   The status after any run with an advancing clock: failed exactly when a tick has seen
   the task expired, otherwise completed exactly when it has consensus.
   */
  lemma {:induction false} StatusDecided(states: seq<Service>, events: seq<Event>, k: nat, id: uint32)
    requires IsRun(states, events) && ClockAdvances(events) && k <= |events| && id in states[k].tasks
    ensures var t := states[k].tasks[id];
            var expired := exists i :: 0 <= i < k && TickSeesExpired(states, events, i, id);
            && (t.status == 4 <==> expired)
            && (t.status == 3 <==> t.consensus && !expired)
  {
    if i: nat :| i < k && TickSeesExpired(states, events, i, id) {
      ExpiredForEver(states, events, i, k, id);
    } else if k > 0 && id in states[k - 1].tasks {
      StatusDecided(states, events, k - 1, id);
      OneStep(states[k - 1], events[k - 1], id);
      assert !TickSeesExpired(states, events, k - 1, id);
    }
  }

  /** What a task was submitted as, by one of the first `k` events. */
  function Submitted(events: seq<Event>, k: nat, id: uint32): Option<Task>
    requires k <= |events|
  {
    if k == 0 then None
    else if events[k - 1].Submit? && events[k - 1].id == id then Some(events[k - 1].task)
    else Submitted(events, k - 1, id)
  }

  /** The responses last collected for a task, or those it was submitted with. */
  function LastResponses(events: seq<Event>, k: nat, id: uint32): Option<Responses>
    requires k <= |events|
  {
    if k == 0 then None
    else if events[k - 1].Submit? && events[k - 1].id == id then Some(events[k - 1].task.responses)
    else if events[k - 1].Respond? && events[k - 1].id == id then Some(events[k - 1].responses)
    else LastResponses(events, k - 1, id)
  }

  /** What no tick changes, and the status while neither verdict has been reached. */
  lemma {:induction false} UntouchedByTicks(states: seq<Service>, events: seq<Event>, k: nat, id: uint32)
    requires IsRun(states, events) && k <= |events|
    ensures id in states[k].tasks <==> Submitted(events, k, id).Some?
    ensures id in states[k].tasks ==>
              var t, submitted := states[k].tasks[id], Submitted(events, k, id).value;
              && t.deadline == submitted.deadline && t.threshold == submitted.threshold
              && LastResponses(events, k, id) == Some(t.responses)
              && ((!t.consensus && forall i :: 0 <= i < k ==> !TickSeesExpired(states, events, i, id)) ==>
                    t.status == submitted.status)
  {
    if k > 0 {
      UntouchedByTicks(states, events, k - 1, id);
      if id in states[k - 1].tasks {
        OneStep(states[k - 1], events[k - 1], id);
        assert TickSeesExpired(states, events, k - 1, id) <==>
               events[k - 1].Tick? && Expired(states[k - 1].tasks[id], events[k - 1].now);
      }
    }
  }

  /**
   The whole record of a task after any run with an advancing clock: as it was submitted,
   with the last responses collected, failed once a tick has found it expired and otherwise
   completed once a tick has found it in time with enough valid responses.
   */
  lemma TaskDecided(states: seq<Service>, events: seq<Event>, k: nat, id: uint32)
    requires IsRun(states, events) && ClockAdvances(events) && k <= |events|
    ensures id in states[k].tasks <==> Submitted(events, k, id).Some?
    ensures id in states[k].tasks ==>
              var submitted := Submitted(events, k, id).value;
              var expired := exists i :: 0 <= i < k && TickSeesExpired(states, events, i, id);
              var concluded := exists i :: 0 <= i < k && TickSeesQuorum(states, events, i, id);
              && LastResponses(events, k, id).Some?
              && states[k].tasks[id] ==
                 Task(submitted.deadline, submitted.threshold,
                      if expired then 4 else if concluded then 3 else submitted.status,
                      LastResponses(events, k, id).value, concluded)
  {
    UntouchedByTicks(states, events, k, id);
    if id in states[k].tasks {
      StatusDecided(states, events, k, id);
      ConsensusDecided(states, events, k, id);
    }
  }

  // ---- Completion is not final

  /** How many of the first `k` events find the task expired. */
  ghost function OwnExpiries(states: seq<Service>, events: seq<Event>, k: nat, id: uint32): nat
    requires |states| == |events| + 1 && k <= |events|
  {
    if k == 0 then 0 else
      OwnExpiries(states, events, k - 1, id) + if TickSeesExpired(states, events, k - 1, id) then 1 else 0
  }

  lemma ExpiredNonNegative(tasks: Tasks, now: uint64)
    ensures SumOver(tasks, ExpiredBit(now)) >= 0
  {
    var none := (t: Task) => 0;
    SumOverConstant(tasks, none, 0);
    SumOverMonotone(tasks, none, ExpiredBit(now));
  }

  /** A task that a tick finds expired is one of those counted. */
  lemma ExpiryIsCounted(tasks: Tasks, now: uint64, id: uint32)
    ensures SumOver(tasks, ExpiredBit(now)) >= if id in tasks && now > tasks[id].deadline then 1 else 0
  {
    ExpiredNonNegative(tasks, now);
    ExpiredNonNegative(tasks - {id}, now);
    if id in tasks {
      SumOverRemove(tasks, ExpiredBit(now), id);
    }
  }

  /** The failed counter holds at least what one task puts into it. */
  lemma {:induction false} FailedCoversTask(states: seq<Service>, events: seq<Event>, k: nat, id: uint32)
    requires IsRun(states, events) && k <= |events|
    ensures states[k].failed >= OwnExpiries(states, events, k, id)
  {
    if k > 0 {
      FailedCoversTask(states, events, k - 1, id);
      if events[k - 1].Tick? { ExpiryIsCounted(states[k - 1].tasks, events[k - 1].now, id); }
    }
  }

  /** After the first tick that finds a task expired, every further tick counts it again. */
  lemma {:induction false} EveryLaterTickCounts(states: seq<Service>, events: seq<Event>, j: nat, k: nat, id: uint32)
    requires IsRun(states, events) && ClockAdvances(events) && j < k <= |events|
    requires TickSeesExpired(states, events, j, id)
    ensures OwnExpiries(states, events, k, id) >= TicksBetween(events, j, k) >= 1
    decreases k
  {
    if j + 1 < k {
      EveryLaterTickCounts(states, events, j, k - 1, id);
      if events[k - 1].Tick? { ExpiryLasts(states, events, j, k - 1, id); }
    }
  }

  function TicksBetween(events: seq<Event>, j: nat, k: nat): nat
    requires j <= k <= |events|
    decreases k
  {
    if j == k then 0 else TicksBetween(events, j, k - 1) + if events[k - 1].Tick? then 1 else 0
  }

  /**
   In every run with an advancing clock, a completed task that a later tick finds expired
   is failed from then on. It still stands in the completed counter, and the
   failed counter has grown by at least one for every tick from that one on.
   */
  lemma CompletedThenFailed(states: seq<Service>, events: seq<Event>, i: nat, j: nat, k: nat, id: uint32)
    requires IsRun(states, events) && ClockAdvances(events) && i <= j < k <= |events|
    requires id in states[i].tasks && states[i].tasks[id].status == 3
    requires TickSeesExpired(states, events, j, id)
    ensures id in states[k].tasks && states[k].tasks[id].status == 4
    ensures states[k].completed == 1 + |set o: uint32 | o in states[k].tasks && o != id && states[k].tasks[o].consensus|
    ensures states[k].failed >= TicksBetween(events, j, k) >= 1
  {
    StatusDecided(states, events, i, id);
    ConsensusNeverReverts(states, events, i, k, id);
    ExpiredForEver(states, events, j, k, id);
    CompletedCountsConsensus(states, events, k);
    var others := set o: uint32 | o in states[k].tasks && o != id && states[k].tasks[o].consensus;
    assert (set o: uint32 | o in states[k].tasks && states[k].tasks[o].consensus) == others + {id};
    FailedCoversTask(states, events, k, id);
    EveryLaterTickCounts(states, events, j, k, id);
  }

  lemma OneTaskTick(id: uint32, t: Task, completed: int, failed: int, now: uint64)
    ensures AfterTick(Service(map[id := t], completed, failed), now) ==
            Service(map[id := TaskAfterTick(t, now)], completed + ReachesBit(now)(t), failed + ExpiredBit(now)(t))
  {
    var tasks: Tasks := map[id := t];
    SumOverRemove(tasks, ReachesBit(now), id);
    SumOverRemove(tasks, ExpiredBit(now), id);
    assert (tasks - {id}).Keys == {};
    assert TasksAfterTick(tasks, now) == map[id := TaskAfterTick(t, now)];
  }

  /** And this happens: a service with one task, through one tick in time and one past the deadline. */
  lemma CompletedTaskFails(id: uint32, t: Task, inTime: uint64, late: uint64)
    requires !t.consensus && inTime <= t.deadline < late
    requires |set op | op in t.responses && t.responses[op].valid| >= t.threshold
    ensures var s := AfterTick(Service(map[id := t], 0, 0), inTime);
            && s == Service(map[id := t.(status := 3, consensus := true)], 1, 0)
            && AfterTick(s, late) == Service(map[id := t.(status := 4, consensus := true)], 1, 1)
  {
    QuorumCounts(t);
    OneTaskTick(id, t, 0, 0, inTime);
    OneTaskTick(id, TaskAfterTick(t, inTime), 1, 0, late);
  }
}
