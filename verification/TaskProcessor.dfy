/** The tick of the aggregator service over its mutable tasks. */
module TaskProcessor {
  import opened Basics
  import opened Folds
  import opened TaskRuns

  class SyncHookTask {
    const deadline: uint64
    const quorumThreshold: uint32
    var status: uint32
    var responses: Responses
    var consensusReached: bool

    constructor (deadline: uint64, quorumThreshold: uint32, status: uint32)
      ensures Value() == Task(deadline, quorumThreshold, status, map[], false)
    {
      this.deadline, this.quorumThreshold, this.status := deadline, quorumThreshold, status;
      responses, consensusReached := map[], false;
    }

    ghost function Value(): Task
      reads this
    {
      Task(deadline, quorumThreshold, status, responses, consensusReached)
    }
  }

  class Processor {
    var tasks: map<uint32, SyncHookTask>
    var tasksCompleted: int
    var tasksFailed: int

    /** No two ids share a task. */
    ghost predicate Valid()
      reads this
    {
      forall a, b :: a in tasks && b in tasks && a != b ==> tasks[a] != tasks[b]
    }

    ghost function TaskValues(): Tasks
      reads this, tasks.Values
    {
      map id | id in tasks :: tasks[id].Value()
    }

    ghost function View(): Service
      reads this, tasks.Values
    {
      Service(TaskValues(), tasksCompleted, tasksFailed)
    }

    constructor ()
      ensures Valid() && View() == Service(map[], 0, 0)
    {
      tasks, tasksCompleted, tasksFailed := map[], 0, 0;
    }

    /** One tick, visiting the tasks in whatever order the map yields them. */
    method ProcessTasks(now: uint64)
      requires Valid()
      modifies this`tasksCompleted, this`tasksFailed, tasks.Values
      ensures Valid()
      ensures View() == AfterTick(old(View()), now)
    {
      ghost var before, rest := View(), TaskValues();
      var todo := tasks;
      while todo.Keys != {}
        invariant todo.Keys == rest.Keys
        invariant Midway(before, rest, View(), now)
        decreases todo.Keys
      {
        var id :| id in todo;
        MidwayStep(before, rest, View(), id, now);
        ProcessTask(id, now);
        todo, rest := todo - {id}, rest - {id};
      }
      MidwayEnd(before, rest, View(), now);
    }

    /** Visits one task of the map. */
    method ProcessTask(id: uint32, now: uint64)
      requires Valid() && id in tasks
      modifies this`tasksCompleted, this`tasksFailed, tasks[id]
      ensures View() == AfterVisit(old(View()), id, now)
    {
      ghost var t := tasks[id].Value();
      ExpireOrConclude(tasks[id], now);
      assert TaskValues() == old(TaskValues())[id := TaskAfterTick(t, now)];
    }

    /** What a tick does to one task. */
    method ExpireOrConclude(task: SyncHookTask, now: uint64)
      modifies this`tasksCompleted, this`tasksFailed, task
      ensures task.Value() == TaskAfterTick(old(task.Value()), now)
      ensures tasksCompleted == old(tasksCompleted) + ReachesBit(now)(old(task.Value()))
      ensures tasksFailed == old(tasksFailed) + ExpiredBit(now)(old(task.Value()))
    {
      AtMostAllValid(task.responses);
      if now > task.deadline {
        task.status := FAILED;
        tasksFailed := tasksFailed + 1;
        return;
      }
      if |task.responses| >= task.quorumThreshold {
        ProcessConsensus(task);
      }
    }

    /** Completes a task once, if enough of its responses are valid. */
    method ProcessConsensus(task: SyncHookTask)
      modifies this`tasksCompleted, task
      ensures var t := old(task.Value());
              var reached := !t.consensus && HasQuorum(t);
              && task.Value() == (if reached then t.(status := COMPLETED, consensus := true) else t)
              && tasksCompleted == old(tasksCompleted) + if reached then 1 else 0
    {
      if task.consensusReached {
        return;
      }
      var validResponses := CountValid(task.responses);
      if validResponses >= task.quorumThreshold {
        task.consensusReached := true;
        task.status := COMPLETED;
        tasksCompleted := tasksCompleted + 1;
      }
    }
  }

  method CountValid(responses: Responses) returns (valid: int)
    ensures valid == ValidResponses(responses)
  {
    valid := 0;
    var todo := responses;
    while todo.Keys != {}
      invariant valid + SumOver(todo, ValidBit) == ValidResponses(responses)
      decreases todo.Keys
    {
      var operator :| operator in todo;
      SumOverRemove(todo, ValidBit, operator);
      if todo[operator].valid {
        valid := valid + 1;
      }
      todo := todo - {operator};
    }
  }

  /** Too few responses are also too few valid ones, so the first count decides nothing alone. */
  lemma AtMostAllValid(responses: Responses)
    ensures 0 <= ValidResponses(responses) <= |responses|
  {
    var none := (r: Response) => 0;
    var one := (r: Response) => 1;
    SumOverConstant(responses, none, 0);
    SumOverConstant(responses, one, 1);
    SumOverMonotone(responses, none, ValidBit);
    SumOverMonotone(responses, ValidBit, one);
  }
}
