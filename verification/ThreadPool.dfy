/** The pool as the C code keeps it: a circular doubly linked list of tasks, counters and the stop flag.
    Each critical section is proved to be a step of the protocol in `Pool`. */
module ThreadPool {
  import opened Pool

  class Task {
    const id: nat
    var next: Task?
    var prev: Task?

    constructor (id: nat)
      ensures this.id == id
    {
      this.id, next, prev := id, null, null;
    }
  }

  /** What a worker does after its first critical section. */
  datatype Verdict = Leave | Wait | Execute(task: Task)

  function Succ(i: nat, n: nat): nat { if i + 1 < n then i + 1 else 0 }
  function Pred(i: nat, n: nat): int { if i > 0 then i - 1 else n - 1 }

  /** The queue of tasks waiting to run. */
  class TaskList {
    var head: Task?
    var taskNum: nat
    ghost var tasks: seq<Task>

    /** `tasks` is one ring in both directions, starting at `head`. */
    ghost predicate Ring()
      reads this, tasks
    {
      var n := |tasks|;
      && taskNum == n && head == (if n == 0 then null else tasks[0])
      && (forall i, j | 0 <= i < j < n :: tasks[i] != tasks[j])
      && (forall i | 0 <= i < n :: Hooked(tasks, i))
    }

    /** Task `i` is linked to the ones before and after it. */
    static ghost predicate Hooked(ts: seq<Task>, i: nat)
      requires i < |ts|
      reads ts
    {
      ts[i].next == ts[Succ(i, |ts|)] && ts[i].prev == ts[Pred(i, |ts|)]
    }

    ghost function Ids(): (r: seq<nat>)
      reads this
      ensures |r| == |tasks|
    {
      seq(|tasks|, i requires 0 <= i < |tasks| reads this => tasks[i].id)
    }

    constructor ()
      ensures Ring() && tasks == []
    {
      head, taskNum, tasks := null, 0, [];
    }

    /** `threadpool_queue_task` */
    method Append(task: Task)
      requires Ring() && task !in tasks
      modifies this, task, tasks
      ensures Ring() && tasks == old(tasks) + [task]
    {
      ghost var n := |tasks|;
      if head == null {
        head := task;
        head.next := task;
        head.prev := task;
      } else {
        var prev, next := head.prev, head;
        assert Hooked(tasks, 0);
        assert prev == tasks[n - 1] && next == tasks[0];
        next.prev := task;
        task.next := next;
        task.prev := prev;
        prev.next := task;
      }
      taskNum := taskNum + 1;
      tasks := tasks + [task];
      forall i | 0 <= i < |tasks|
        ensures Hooked(tasks, i)
      {
        if i < n { assert old(Hooked(tasks, i)); }
      }
    }

    /** `threadpool_dequeue_task` */
    method TakeFirst() returns (task: Task?)
      requires Ring()
      modifies this, tasks
      ensures Ring()
      ensures if old(tasks) == [] then task == null && tasks == []
        else task == old(tasks)[0] && tasks == old(tasks)[1..]
    {
      if head == null { return null; }
      ghost var n := |tasks|;
      task := head;
      assert Hooked(tasks, 0);
      if task.next == task {
        head := null;
      } else {
        var next, prev := task.next, task.prev;
        assert next == tasks[1] && prev == tasks[n - 1];
        next.prev := prev;
        prev.next := next;
        head := next;
      }
      taskNum := taskNum - 1;
      tasks := tasks[1..];
      forall i | 0 <= i < |tasks|
        ensures Hooked(tasks, i)
      {
        assert old(Hooked(tasks, i + 1));
      }
    }
  }

  /** The pool's shared state.  `rest` holds what the protocol knows and the C structure does not store:
      where the workers are, and the history of the tasks. */
  class ThreadPool {
    const list: TaskList
    var idleNum: int
    var stop: bool
    ghost var rest: State

    ghost function View(): State
      reads this, list
    {
      rest.(idle := idleNum, waiting := list.Ids(), stop := stop)
    }

    ghost predicate Valid()
      reads this, list, list.tasks
    {
      list.Ring() && Inv(View())
    }

    constructor (n: nat)
      ensures Valid() && View() == Initial(n) && fresh(list)
    {
      list := new TaskList();
      idleNum, stop, rest := n, false, Initial(n);
      new;
      InitialInv(n);
      assert View() == Initial(n);
    }

    /** The critical section of `wayca_sc_threadpool_queue`: append a task, and signal unless every worker is
        in a task.  A sleeping worker is never left without the signal. */
    method Submit(task: Task, ghost woken: set<nat>) returns (signal: bool)
      requires Valid() && task !in list.tasks && task.id == rest.queued && Enabled(View(), Step.Queue(woken))
      modifies this, list, list.tasks, task
      ensures Valid() && View() == Next(old(View()), Step.Queue(woken))
      ensures signal <==> old(View()).idle != 0
      ensures SomeSleeper(old(View()).workers, All(old(View()).workers)) ==> signal
    {
      ghost var st := View();
      StepInv(st, Step.Queue(woken));
      SleeperCountedIdle(st);
      list.Append(task);
      rest := Next(st, Step.Queue(woken));
      signal := idleNum != 0;
      assert list.Ids() == st.waiting + [task.id];
    }

    /** The first critical section of `wayca_threadpool_worker_func`, for worker `w`. */
    method Poll(ghost w: nat) returns (verdict: Verdict)
      requires Valid() && w < |rest.workers| && rest.workers[w].Awake?
      modifies this, list, list.tasks
      ensures Valid()
      ensures match verdict
        case Leave => Enabled(old(View()), Exit(w)) && View() == Next(old(View()), Exit(w))
        case Wait => Enabled(old(View()), Sleep(w)) && View() == Next(old(View()), Sleep(w))
        case Execute(task) =>
          Enabled(old(View()), Take(w)) && View() == Next(old(View()), Take(w)) && View().workers[w] == Running(task.id)
    {
      ghost var st := View();
      if stop {
        StepInv(st, Exit(w));
        rest := Next(st, Exit(w));
        return Leave;
      }
      if list.taskNum == 0 {
        StepInv(st, Sleep(w));
        rest := Next(st, Sleep(w));
        return Wait;
      }
      StepInv(st, Take(w));
      var task := list.TakeFirst();
      idleNum := idleNum - 1;
      rest := Next(st, Take(w));
      assert list.Ids() == st.waiting[1..];
      return Execute(task);
    }

    /** The second critical section: the worker is idle again. */
    method Account(ghost w: nat)
      requires Valid() && w < |rest.workers| && rest.workers[w].Returned?
      modifies this
      ensures Valid() && View() == Next(old(View()), Finish(w))
    {
      ghost var st := View();
      StepInv(st, Finish(w));
      idleNum := idleNum + 1;
      rest := Next(st, Finish(w));
    }

    /** The first critical section of `wayca_sc_threadpool_destroy`: stop, and wake everyone. */
    method RequestStop()
      requires Valid() && !stop
      modifies this
      ensures Valid() && View() == Next(old(View()), Stop)
    {
      ghost var st := View();
      StepInv(st, Stop);
      stop := true;
      rest := Next(st, Stop);
    }

    /** The second, after every worker has been joined: drop what is left in the queue. */
    method DropTasks()
      requires Valid() && Enabled(View(), Drain)
      modifies this, list, list.tasks
      ensures Valid() && View() == Next(old(View()), Drain)
    {
      ghost var st, queue := View(), list.tasks;
      StepInv(st, Drain);
      while list.head != null
        invariant list.Ring() && idleNum == st.idle && stop == st.stop && rest == old(rest)
        invariant |list.tasks| <= |queue| && list.tasks == queue[|queue| - |list.tasks|..]
        decreases |list.tasks|
      {
        var task := list.TakeFirst();
      }
      rest := Next(st, Drain);
      assert list.Ids() == [];
    }
  }

  /** A sleeper is counted idle, so its presence forces the signal. */
  lemma SleeperCountedIdle(st: State)
    requires CountsOk(st) && !st.stop
    ensures SomeSleeper(st.workers, All(st.workers)) ==> st.idle > 0
  {
    NumTotal(st.workers);
    if SomeSleeper(st.workers, All(st.workers)) {
      var w: nat :| w < |st.workers| && st.workers[w].Sleeping?;
      NumSome(st.workers, w, Asleep);
    }
  }
}
