/** The task scheduler of services/scheduler.py. The asyncio task that runs a
    scheduled job is modelled by its bookkeeping: a task id in `tasks`, the
    name and interval it loops over in `jobs`, and one turn of its loop as
    `Tick`. A task ends for good when it is cancelled or when its loop finds
    the flag down. Times are seconds, intervals minutes. */
module Scheduling {

  /** The answer of `get_task_status`. */
  datatype TaskStatus =
    | NotFound
    | Found(running: bool, lastRun: int, nextRun: int, intervalMinutes: int)

  /** `get_task_status` over the two tables and the flag: unknown names are
      not found; a known one reports its last run, the next run one interval
      later, and "running" exactly while the scheduler runs. */
  function StatusOf(intervals: map<string, int>, lastRun: map<string, int>, isRunning: bool, name: string): (st: TaskStatus)
    requires intervals.Keys <= lastRun.Keys
    ensures st.NotFound? <==> name !in intervals
    ensures st.Found? ==> st.running == isRunning && st.lastRun == lastRun[name]
    ensures st.Found? ==> st.intervalMinutes == intervals[name]
    ensures st.Found? ==> st.nextRun - st.lastRun == 60 * st.intervalMinutes
  {
    if name !in intervals then NotFound
    else Found(isRunning, lastRun[name], lastRun[name] + 60 * intervals[name], intervals[name])
  }

  class Scheduler {
    var tasks: map<string, nat>
    var intervals: map<string, int>
    var lastRun: map<string, int>
    var isRunning: bool
    /** Ids handed to created tasks so far, the name and interval each task
        loops over, the ids of cancelled tasks, and the ids of tasks whose
        loop ended because it found the flag down. */
    var tasksCreated: nat
    var jobs: map<nat, (string, int)>
    var cancelled: set<nat>
    var finished: set<nat>

    /** Every scheduled name has both an interval and a last run; every task
        was created for a scheduled name. */
    ghost predicate Valid()
      reads this
    {
      && intervals.Keys == lastRun.Keys && tasks.Keys <= intervals.Keys
      && (forall id :: id in jobs ==> id < tasksCreated && jobs[id].0 in intervals)
      && (forall n :: n in tasks ==> tasks[n] in jobs)
      && cancelled <= jobs.Keys && finished <= jobs.Keys
    }

    /** The loop of task `id` still exists: it was created, and it was
        neither cancelled nor ended. */
    predicate Live(id: nat)
      reads this
    {
      id in jobs && id !in cancelled && id !in finished
    }

    constructor ()
      ensures Valid()
      ensures tasks == map[] && intervals == map[] && lastRun == map[] && !isRunning
      ensures tasksCreated == 0 && jobs == map[] && cancelled == {} && finished == {}
    {
      tasks := map[];
      intervals := map[];
      lastRun := map[];
      isRunning := false;
      tasksCreated := 0;
      jobs := map[];
      cancelled := {};
      finished := {};
    }

    /** `schedule_task`: records the interval, takes `now` as the last run and
        creates the task that loops over the job. A task created earlier for
        the same name is replaced in `tasks` without being cancelled. */
    method ScheduleTask(name: string, intervalMinutes: int, now: int) returns (id: nat)
      requires Valid()
      modifies this
      ensures Valid()
      ensures id == old(tasksCreated) && tasksCreated == old(tasksCreated) + 1
      ensures intervals == old(intervals)[name := intervalMinutes]
      ensures lastRun == old(lastRun)[name := now]
      ensures tasks == old(tasks)[name := id]
      ensures jobs == old(jobs)[id := (name, intervalMinutes)] && Live(id)
      ensures isRunning == old(isRunning) && cancelled == old(cancelled) && finished == old(finished)
    {
      intervals := intervals[name := intervalMinutes];
      lastRun := lastRun[name := now];
      id := tasksCreated;
      tasks := tasks[name := id];
      jobs := jobs[id := (name, intervalMinutes)];
      tasksCreated := tasksCreated + 1;
    }

    /** One turn of the loop of task `id`, which exists only while the task
        is live. A loop that finds the flag down ends for good. Otherwise the
        job runs: success moves the task's last run to the time after it,
        failure leaves it; either way the loop then sleeps one interval. */
    method Tick(id: nat, succeeded: bool, now: int) returns (ran: bool, sleepSeconds: int)
      requires Valid()
      requires Live(id)
      modifies this
      ensures Valid()
      ensures jobs == old(jobs) && id in jobs
      ensures ran == old(isRunning)
      ensures ran ==> sleepSeconds == 60 * jobs[id].1 && finished == old(finished)
      ensures !ran ==> sleepSeconds == 0 && finished == old(finished) + {id} && !Live(id)
      ensures ran && succeeded ==> lastRun == old(lastRun)[jobs[id].0 := now]
      ensures !(ran && succeeded) ==> lastRun == old(lastRun)
      ensures intervals == old(intervals)
      ensures tasks == old(tasks) && isRunning == old(isRunning)
      ensures tasksCreated == old(tasksCreated) && cancelled == old(cancelled)
    {
      if !isRunning {
        finished := finished + {id};
        return false, 0;
      }
      var (name, intervalMinutes) := jobs[id];
      if succeeded {
        lastRun := lastRun[name := now];
      }
      ran, sleepSeconds := true, 60 * intervalMinutes;
    }

    /** `start`: only the flag changes. */
    method Start()
      modifies this
      ensures isRunning
      ensures tasks == old(tasks) && intervals == old(intervals) && lastRun == old(lastRun)
      ensures tasksCreated == old(tasksCreated) && jobs == old(jobs)
      ensures cancelled == old(cancelled) && finished == old(finished)
    {
      isRunning := true;
    }

    /** `stop`: lowers the flag, cancels every task and forgets them, but keeps
        the intervals and last runs. */
    method Stop()
      requires Valid()
      modifies this
      ensures Valid()
      ensures !isRunning && tasks == map[]
      ensures cancelled == old(cancelled) + old(tasks).Values
      ensures intervals == old(intervals) && lastRun == old(lastRun) && tasksCreated == old(tasksCreated)
      ensures jobs == old(jobs) && finished == old(finished)
      ensures forall id :: id in old(tasks).Values ==> !Live(id)
    {
      isRunning := false;
      cancelled := cancelled + tasks.Values;
      tasks := map[];
    }

    /** `get_task_status`. */
    function GetTaskStatus(name: string): (st: TaskStatus)
      requires Valid()
      reads this
      ensures st == StatusOf(intervals, lastRun, isRunning, name)
    {
      StatusOf(intervals, lastRun, isRunning, name)
    }
  }

  /** A task scheduled and then stopped reports "stopped", not "not found":
      `stop` keeps its interval and last run. */
  method StoppedTaskIsStillKnown(name: string, intervalMinutes: int, now: int) returns (st: TaskStatus)
    ensures st == Found(false, now, now + 60 * intervalMinutes, intervalMinutes)
  {
    var s := new Scheduler();
    s.Start();
    var id := s.ScheduleTask(name, intervalMinutes, now);
    s.Stop();
    st := s.GetTaskStatus(name);
  }

  /** `start` after `stop` revives no loop: the task is cancelled, so the
      last run stays where scheduling put it, and only the flag is up again. */
  method RestartRevivesNoTask(name: string, intervalMinutes: int, now: int) returns (live: bool, st: TaskStatus)
    ensures !live
    ensures st == Found(true, now, now + 60 * intervalMinutes, intervalMinutes)
  {
    var s := new Scheduler();
    var id := s.ScheduleTask(name, intervalMinutes, now);
    s.Start();
    s.Stop();
    s.Start();
    live := s.Live(id);
    st := s.GetTaskStatus(name);
  }

  /** A failing job leaves the next run where it was; a succeeding one moves
      it one interval past the time it finished. */
  lemma NextRunAfterTick(intervals: map<string, int>, lastRun: map<string, int>, name: string, now: int)
    requires intervals.Keys == lastRun.Keys && name in intervals
    ensures StatusOf(intervals, lastRun[name := now], true, name).nextRun == now + 60 * intervals[name]
    ensures StatusOf(intervals, lastRun[name := now], true, name).nextRun -
            StatusOf(intervals, lastRun, true, name).nextRun == now - lastRun[name]
  {
  }
}
