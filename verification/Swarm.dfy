/** The scheduler as objects: the shared queue and the run that owns the workers, the
    results channel and the loop's counters. Every atomic step is a method, proved to
    do exactly what the step function says. */
module Swarm {
  import opened Scheduler
  import opened SchedulerSafety
  import opened Shared

  class ChunkQueue {
    var tasks: seq<Task>

    constructor (initial: seq<Task>)
      ensures tasks == initial
    {
      tasks := initial;
    }

    method Next() returns (found: bool, task: Task)
      modifies this
      ensures found == (old(tasks) != [])
      ensures found ==> [task] + tasks == old(tasks)
      ensures !found ==> tasks == []
    {
      if |tasks| == 0 {
        return false, Task(Key(0, []), 0, {});
      }
      found, task := true, tasks[0];
      tasks := tasks[1..];
    }

    method Push(task: Task)
      modifies this
      ensures tasks == old(tasks) + [task]
    {
      tasks := tasks + [task];
    }
  }

  class Run {
    const config: Config
    const queue: ChunkQueue
    var workers: seq<Worker>
    var results: seq<Msg>
    var completions: seq<Task>
    var pending: nat
    var active: nat
    var phase: Phase
    var store: set<ChunkId>
    ghost var handled: multiset<Key>

    ghost function View(): State
      reads this, queue
    {
      State(queue.tasks, workers, results, completions, pending, active, phase, store, handled)
    }

    constructor (c: Config, stored: set<ChunkId>)
      ensures config == c && fresh(queue)
      ensures View() == Init(c, stored) && Inv(c, View())
    {
      config := c;
      queue := new ChunkQueue(c.tasks);
      workers := seq(|c.sources|, _ => Unstarted);
      results, completions := [], [];
      pending, active := |c.tasks|, 0;
      phase, store, handled := Starting(0), stored, multiset{};
      new;
      InitInv(c, stored);
    }

    /** Try to start a worker for the next source. */
    method Connect(ok: bool)
      requires Enabled(config, View(), Event.Connect(ok))
      modifies this, queue
      ensures View() == Step(config, old(View()), Event.Connect(ok))
    {
      var k := phase.next;
      if ok {
        workers, active := workers[k := Polling], active + 1;
      } else {
        workers := workers[k := Refused];
      }
      phase := Starting(k + 1);
    }

    /** A worker asks the queue for its next task, or decides to stop. */
    method Poll(w: nat)
      requires Enabled(config, View(), Pop(w))
      modifies this, queue
      ensures View() == Step(config, old(View()), Pop(w))
    {
      var found, task := queue.Next();
      if found {
        assert old(queue.tasks)[0] == task && old(queue.tasks)[1..] == queue.tasks;
        workers := workers[w := Holding(task)];
      } else {
        workers := workers[w := Sending(WorkerDone(w))];
      }
    }

    /** A worker that already missed its task gives it back; otherwise it fetches,
        stores on success, and has a result to report. */
    method Work(w: nat, fetch: Fetch)
      requires w < |workers| == |config.sources| && workers[w].Holding?
      modifies this, queue
      ensures View() == Step(config, old(View()),
        if config.sources[w] in old(workers)[w].task.missed then Skip(w) else Fetching(w, fetch))
    {
      var task := workers[w].task;
      if config.sources[w] in task.missed {
        queue.Push(task);
        workers := workers[w := Yielding];
      } else {
        if fetch.Fetched? {
          store := store + {task.key.chunk};
        }
        workers := workers[w := Sending(TaskResult(w, task, config.sources[w], fetch))];
      }
    }

    /** Put a worker's message on the results channel while it has room. */
    method Deliver(w: nat)
      requires Enabled(config, View(), Send(w))
      modifies this, queue
      ensures View() == Step(config, old(View()), Send(w))
    {
      var m := workers[w].msg;
      results := results + [m];
      workers := workers[w := if m.WorkerDone? then Exited else Polling];
    }

    /** One iteration of the result loop. */
    method HandleResult()
      requires Enabled(config, View(), Receive)
      modifies this, queue
      ensures View() == Step(config, old(View()), Receive)
    {
      var res := results[0];
      results := results[1..];
      if res.WorkerDone? {
        active := active - 1;
        return;
      }
      handled := handled + multiset{res.task.key};
      match res.fetch
      case NotFound =>
        var task := res.task.(missed := res.task.missed + {res.peer});
        if |task.missed| < |config.sources| {
          queue.Push(task);
        } else {
          phase := Returned(NotFoundAnywhere(task));
        }
      case Failed =>
        var task := res.task.(attempts := res.task.attempts + 1);
        if task.attempts < config.maxAttempts {
          queue.Push(task);
        } else {
          phase := Returned(AttemptsExhausted(task));
        }
      case Fetched =>
        completions := completions + [res.task];
        pending := pending - 1;
    }

    /** Perform `e` if it is possible now. */
    method Try(e: Event) returns (done: bool)
      requires |workers| == |config.sources|
      modifies this, queue
      ensures done == Enabled(config, old(View()), e)
      ensures View() == if done then Step(config, old(View()), e) else old(View())
    {
      done := true;
      if e.Connect? && phase.Starting? && phase.next < |workers| {
        Connect(e.ok);
      } else if e.StartLoop? && phase == Starting(|workers|) {
        phase := if active == 0 then Returned(NoWorkers) else Looping;
      } else if e.Pop? && e.w < |workers| && workers[e.w].Polling? {
        Poll(e.w);
      } else if e.Skip? && e.w < |workers| && workers[e.w].Holding? && config.sources[e.w] in workers[e.w].task.missed {
        Work(e.w, NotFound);
      } else if e.Fetching? && e.w < |workers| && workers[e.w].Holding? &&
                config.sources[e.w] !in workers[e.w].task.missed {
        Work(e.w, e.fetch);
      } else if e.Wake? && e.w < |workers| && workers[e.w].Yielding? {
        workers := workers[e.w := if e.cancelled then Sending(WorkerDone(e.w)) else Polling];
      } else if e.Send? && e.w < |workers| && workers[e.w].Sending? && |results| < config.Capacity() {
        Deliver(e.w);
      } else if e.Receive? && phase.Looping? && pending > 0 && active > 0 && results != [] {
        HandleResult();
      } else if e.Cancel? && phase.Looping? && pending > 0 && active > 0 {
        phase := Returned(Cancelled);
      } else if e.Finish? && phase.Looping? && (pending == 0 || active == 0) {
        phase := Returned(if pending > 0 then WorkersDied(pending) else Succeeded);
      } else {
        done := false;
      }
    }

    /** And so keep what every run keeps. */
    method Perform(e: Event) returns (done: bool)
      requires Inv(config, View())
      modifies this, queue
      ensures done == Enabled(config, old(View()), e)
      ensures View() == if done then Step(config, old(View()), e) else old(View())
      ensures Inv(config, View())
    {
      done := Try(e);
      if done {
        InvStep(config, old(View()), e);
      }
    }
  }
}
