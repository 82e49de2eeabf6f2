/** The thread pool's worker protocol, one critical section per step.

    A task is named by its position in queueing order.  A signal wakes at least one sleeper, and a
    sleeper may also wake for no reason; both are in section "pthread_cond_wait" of POSIX.1-2017. */
module Pool {
  /** Where a worker is: at the top of its loop, asleep on the condition, in a task, back from a task
      but not yet counted idle, or out of the loop. */
  datatype Worker = Awake | Sleeping | Running(task: nat) | Returned | Exited

  datatype State = State(
    workers: seq<Worker>, idle: int, waiting: seq<nat>, stop: bool,
    queued: nat, started: seq<nat>, done: set<nat>, discarded: seq<nat>)

  datatype Step =
    | Take(w: nat)
    | Sleep(w: nat)
    | Exit(w: nat)
    | Return(w: nat)
    | Finish(w: nat)
    | Wake(w: nat)
    | Queue(woken: set<nat>)
    | Stop
    | Drain

  function Initial(n: nat): State {
    State(seq(n, _ => Awake), n, [], false, 0, [], {}, [])
  }

  function Woken(ws: seq<Worker>, s: set<nat>): (r: seq<Worker>)
    ensures |r| == |ws|
  {
    seq(|ws|, i requires 0 <= i < |ws| => if i in s && ws[i].Sleeping? then Awake else ws[i])
  }

  ghost predicate SomeSleeper(ws: seq<Worker>, s: set<nat>) {
    exists i: nat :: i < |ws| && i in s && ws[i].Sleeping?
  }

  ghost function Iota(n: nat): (r: seq<nat>)
    ensures |r| == n && forall i | 0 <= i < n :: r[i] == i
  {
    seq(n, i => i)
  }

  ghost function All(ws: seq<Worker>): (s: set<nat>)
    ensures forall i: nat | i < |ws| :: i in s
  {
    assert forall i: nat | i < |ws| :: i in Iota(|ws|) by {
      forall i: nat | i < |ws| ensures i in Iota(|ws|) { assert Iota(|ws|)[i] == i; }
    }
    set i | i in Iota(|ws|)
  }

  /** Which steps the code and the condition variable allow. */
  ghost predicate Enabled(st: State, step: Step) {
    match step
    case Take(w) => w < |st.workers| && st.workers[w].Awake? && !st.stop && st.waiting != []
    case Sleep(w) => w < |st.workers| && st.workers[w].Awake? && !st.stop && st.waiting == []
    case Exit(w) => w < |st.workers| && st.workers[w].Awake? && st.stop
    case Return(w) => w < |st.workers| && st.workers[w].Running?
    case Finish(w) => w < |st.workers| && st.workers[w].Returned?
    case Wake(w) => w < |st.workers| && st.workers[w].Sleeping?
    case Queue(woken) =>
      && !st.stop
      && (if st.idle == 0 then woken == {}
         else SomeSleeper(st.workers, All(st.workers)) ==> SomeSleeper(st.workers, woken))
    case Stop => !st.stop
    case Drain => st.stop && forall w | 0 <= w < |st.workers| :: st.workers[w].Exited?
  }

  ghost function Next(st: State, step: Step): State
    requires Enabled(st, step)
  {
    match step
    case Take(w) => st.(workers := st.workers[w := Running(st.waiting[0])], idle := st.idle - 1,
                        waiting := st.waiting[1..], started := st.started + [st.waiting[0]])
    case Sleep(w) => st.(workers := st.workers[w := Sleeping])
    case Exit(w) => st.(workers := st.workers[w := Exited])
    case Return(w) => st.(workers := st.workers[w := Returned], done := st.done + {st.workers[w].task})
    case Finish(w) => st.(workers := st.workers[w := Awake], idle := st.idle + 1)
    case Wake(w) => st.(workers := st.workers[w := Awake])
    case Queue(woken) =>
      st.(workers := Woken(st.workers, woken), waiting := st.waiting + [st.queued], queued := st.queued + 1)
    case Stop => st.(workers := Woken(st.workers, All(st.workers)), stop := true)
    case Drain => st.(waiting := [], discarded := st.discarded + st.waiting)
  }

  ghost predicate Run(st: State, steps: seq<Step>, st': State)
    decreases |steps|
  {
    if steps == [] then st' == st
    else Enabled(st, steps[0]) && Run(Next(st, steps[0]), steps[1..], st')
  }

  // -------- counting workers --------

  datatype Kind = Idle | Asleep | Executing | Gone

  function KindOf(x: Worker): Kind {
    match x
    case Awake => Idle
    case Sleeping => Asleep
    case Running(_) => Executing
    case Returned => Executing
    case Exited => Gone
  }

  function Num(ws: seq<Worker>, k: Kind): nat {
    if ws == [] then 0 else Num(ws[..|ws| - 1], k) + if KindOf(ws[|ws| - 1]) == k then 1 else 0
  }

  lemma {:induction false} NumUpdate(ws: seq<Worker>, w: nat, x: Worker, k: Kind)
    requires w < |ws|
    ensures Num(ws[w := x], k) + (if KindOf(ws[w]) == k then 1 else 0) == Num(ws, k) + (if KindOf(x) == k then 1 else 0)
  {
    var last := |ws| - 1;
    if w == last {
      assert ws[w := x][..last] == ws[..last];
    } else {
      NumUpdate(ws[..last], w, x, k);
      assert ws[w := x][..last] == ws[..last][w := x];
    }
  }

  lemma {:induction false} NumTotal(ws: seq<Worker>)
    ensures Num(ws, Idle) + Num(ws, Asleep) + Num(ws, Executing) + Num(ws, Gone) == |ws|
  {
    if ws != [] { NumTotal(ws[..|ws| - 1]); }
  }

  lemma {:induction false} NumSome(ws: seq<Worker>, w: nat, k: Kind)
    requires w < |ws| && KindOf(ws[w]) == k
    ensures Num(ws, k) > 0
  {
    if w < |ws| - 1 { NumSome(ws[..|ws| - 1], w, k); }
  }

  lemma {:induction false} NumNone(ws: seq<Worker>, k: Kind)
    requires forall i | 0 <= i < |ws| :: KindOf(ws[i]) != k
    ensures Num(ws, k) == 0
  {
    if ws != [] { NumNone(ws[..|ws| - 1], k); }
  }

  /** The sleepers among `s`. */
  function Roused(ws: seq<Worker>, s: set<nat>): nat {
    if ws == [] then 0
    else Roused(ws[..|ws| - 1], s) + if |ws| - 1 in s && ws[|ws| - 1].Sleeping? then 1 else 0
  }

  lemma {:induction false} RousedSome(ws: seq<Worker>, s: set<nat>)
    ensures Roused(ws, s) > 0 <==> SomeSleeper(ws, s)
  {
    if ws != [] {
      var last := |ws| - 1;
      RousedSome(ws[..last], s);
      if SomeSleeper(ws[..last], s) {
        var i: nat :| i < last && i in s && ws[..last][i].Sleeping?;
        assert ws[i].Sleeping?;
      } else {
        assert forall i: nat | i < last && i in s :: !ws[..last][i].Sleeping?;
      }
    }
  }

  /** Waking moves sleepers to the awake. */
  lemma {:induction false} NumRoused(ws: seq<Worker>, s: set<nat>)
    ensures var ws' := Woken(ws, s);
      && Num(ws', Idle) == Num(ws, Idle) + Roused(ws, s) && Num(ws', Asleep) + Roused(ws, s) == Num(ws, Asleep)
      && Num(ws', Executing) == Num(ws, Executing) && Num(ws', Gone) == Num(ws, Gone)
  {
    if ws != [] {
      NumRoused(ws[..|ws| - 1], s);
      assert Woken(ws, s)[..|ws| - 1] == Woken(ws[..|ws| - 1], s);
    }
  }

  /** At least one wakes if the signal found one. */
  lemma NumWoken(ws: seq<Worker>, s: set<nat>)
    ensures var ws' := Woken(ws, s);
      && Num(ws', Idle) + Num(ws', Asleep) == Num(ws, Idle) + Num(ws, Asleep)
      && Num(ws', Executing) == Num(ws, Executing) && Num(ws', Gone) == Num(ws, Gone)
      && (if SomeSleeper(ws, s) then Num(ws', Idle) > Num(ws, Idle) else Num(ws', Idle) == Num(ws, Idle))
  {
    NumRoused(ws, s);
    RousedSome(ws, s);
  }

  // -------- the invariant --------

  ghost predicate Runs(ws: seq<Worker>, w: nat, t: nat) { w < |ws| && ws[w] == Running(t) }

  /** `idle` counts the workers outside tasks, and nobody sleeps while a task is left for them. */
  ghost predicate CountsOk(st: State) {
    && st.idle == |st.workers| - Num(st.workers, Executing)
    && (!st.stop ==> Num(st.workers, Gone) == 0)
    && (Num(st.workers, Asleep) > 0 ==> !st.stop && Num(st.workers, Idle) >= |st.waiting|)
  }

  /** Tasks start in queueing order, and those not started wait in that order or were discarded. */
  ghost predicate OrderOk(st: State) {
    && st.started + st.discarded + st.waiting == Iota(st.queued)
    && (st.discarded != [] ==> st.stop && forall w | 0 <= w < |st.workers| :: st.workers[w].Exited?)
  }

  /** A started task is either done or run by exactly one worker. */
  ghost predicate TasksOk(st: State) {
    && (forall t | t in st.done :: t < |st.started|)
    && (forall w: nat, t: nat | Runs(st.workers, w, t) :: t < |st.started| && t !in st.done)
    && (forall v: nat, w: nat, t: nat | Runs(st.workers, v, t) && Runs(st.workers, w, t) :: v == w)
    && (forall t: nat | t < |st.started| && t !in st.done :: exists w: nat :: Runs(st.workers, w, t))
  }

  ghost predicate Inv(st: State) { CountsOk(st) && OrderOk(st) && TasksOk(st) }

  lemma InitialInv(n: nat)
    ensures Inv(Initial(n))
  {
    var ws := Initial(n).workers;
    NumNone(ws, Executing);
    NumNone(ws, Asleep);
    NumNone(ws, Gone);
  }

  /** Moving one worker changes the counts of its old and new kind only. */
  lemma MoveCounts(ws: seq<Worker>, w: nat, x: Worker)
    requires w < |ws|
    ensures forall k ::
      Num(ws[w := x], k) + (if KindOf(ws[w]) == k then 1 else 0) == Num(ws, k) + (if KindOf(x) == k then 1 else 0)
  {
    forall k
      ensures Num(ws[w := x], k) + (if KindOf(ws[w]) == k then 1 else 0) ==
        Num(ws, k) + (if KindOf(x) == k then 1 else 0)
    {
      NumUpdate(ws, w, x, k);
    }
  }

  lemma QueueCounts(st: State, woken: set<nat>)
    requires CountsOk(st) && Enabled(st, Queue(woken))
    ensures CountsOk(Next(st, Queue(woken)))
  {
    NumTotal(st.workers);
    NumWoken(st.workers, woken);
    if !SomeSleeper(st.workers, All(st.workers)) { NumNone(st.workers, Asleep); }
  }

  lemma StepCounts(st: State, step: Step)
    requires CountsOk(st) && Enabled(st, step)
    ensures CountsOk(Next(st, step))
  {
    var ws := st.workers;
    match step
    case Take(w) => MoveCounts(ws, w, Running(st.waiting[0]));
    case Sleep(w) => MoveCounts(ws, w, Sleeping);
    case Exit(w) => MoveCounts(ws, w, Exited);
    case Return(w) => MoveCounts(ws, w, Returned);
    case Finish(w) => MoveCounts(ws, w, Awake);
    case Wake(w) => MoveCounts(ws, w, Awake);
    case Queue(woken) => QueueCounts(st, woken);
    case Stop =>
      NumWoken(ws, All(ws));
      NumNone(Woken(ws, All(ws)), Asleep);
    case Drain => NumNone(ws, Asleep);
  }

  lemma StepOrder(st: State, step: Step)
    requires OrderOk(st) && Enabled(st, step)
    ensures OrderOk(Next(st, step))
  {
    var st' := Next(st, step);
    match step
    case Take(w) => assert st.discarded == []; assert st'.started + st'.waiting == st.started + st.waiting;
    case Queue(_) => assert st'.started + st'.discarded + st'.waiting == Iota(st.queued) + [st.queued];
    case Drain => assert st'.started + st'.discarded + st'.waiting == st.started + st.discarded + st.waiting;
    case _ =>
  }

  lemma StepTasks(st: State, step: Step)
    requires OrderOk(st) && TasksOk(st) && Enabled(st, step)
    ensures TasksOk(Next(st, step))
  {
    var ws, st' := st.workers, Next(st, step);
    match step
    case Take(w) =>
      assert st.discarded == []
        && st.waiting[0] == (st.started + st.discarded + st.waiting)[|st.started|] == |st.started|;
      forall t: nat | t < |st'.started| && t !in st'.done
        ensures exists v: nat :: Runs(st'.workers, v, t)
      {
        if t == |st.started| {
          assert Runs(st'.workers, w, t);
        } else {
          var v: nat :| Runs(ws, v, t);
          assert Runs(st'.workers, v, t);
        }
      }
      assert forall v: nat, t: nat | Runs(st'.workers, v, t) && v != w :: Runs(ws, v, t);
    case Queue(woken) =>
      assert forall v: nat, t: nat :: Runs(st'.workers, v, t) <==> Runs(ws, v, t);
    case Stop =>
      assert forall v: nat, t: nat :: Runs(st'.workers, v, t) <==> Runs(ws, v, t);
    case Drain =>
    case Return(w) =>
      var t0 := ws[w].task;
      assert Runs(ws, w, t0);
      assert forall v: nat, t: nat :: Runs(st'.workers, v, t) <==> Runs(ws, v, t) && v != w;
    case _ =>
      assert forall v: nat, t: nat :: Runs(st'.workers, v, t) <==> Runs(ws, v, t);
  }

  lemma StepInv(st: State, step: Step)
    requires Inv(st) && Enabled(st, step)
    ensures Inv(Next(st, step))
  {
    StepCounts(st, step);
    StepOrder(st, step);
    StepTasks(st, step);
  }

  lemma {:induction false} RunInv(st: State, steps: seq<Step>, st': State)
    requires Inv(st) && Run(st, steps, st')
    ensures Inv(st')
    decreases |steps|
  {
    if steps != [] {
      StepInv(st, steps[0]);
      RunInv(Next(st, steps[0]), steps[1..], st');
    }
  }

  /** A signal may wake any one sleeper, and only that one; without an idle worker there is none. */
  lemma SignalWakesAny(st: State, w: nat)
    requires !st.stop && w < |st.workers| && st.workers[w].Sleeping? && st.idle != 0
    ensures Enabled(st, Queue({w}))
    ensures var ws, ws' := st.workers, Next(st, Queue({w})).workers;
      ws'[w].Awake? && |ws'| == |ws| && forall v: nat | v < |ws| && v != w :: ws'[v] == ws[v]
  {
    assert w in {w} && SomeSleeper(st.workers, {w});
  }

  // -------- what every run of a pool of `n` workers guarantees --------

  /** No lost wake-up: before the stop, the awake workers cover the waiting tasks, or every worker
      outside a task is awake; so the signal is never skipped while someone sleeps. */
  lemma WorkConserving(n: nat, steps: seq<Step>, st: State)
    requires Run(Initial(n), steps, st) && !st.stop
    ensures st.idle == Num(st.workers, Idle) + Num(st.workers, Asleep)
    ensures Num(st.workers, Idle) >= if |st.waiting| < st.idle then |st.waiting| else st.idle
    ensures SomeSleeper(st.workers, All(st.workers)) ==> |st.waiting| < st.idle
  {
    InitialInv(n);
    RunInv(Initial(n), steps, st);
    NumTotal(st.workers);
    if SomeSleeper(st.workers, All(st.workers)) {
      var w: nat :| w < |st.workers| && st.workers[w].Sleeping?;
      NumSome(st.workers, w, Asleep);
    }
  }

  /** Tasks start in the order they were queued. */
  lemma FirstInFirstOut(n: nat, steps: seq<Step>, st: State)
    requires Run(Initial(n), steps, st)
    ensures |st.started| + |st.discarded| + |st.waiting| == st.queued
    ensures forall i | 0 <= i < |st.started| :: st.started[i] == i
    ensures forall i | 0 <= i < |st.waiting| :: st.waiting[i] == st.queued - |st.waiting| + i
  {
    InitialInv(n);
    RunInv(Initial(n), steps, st);
    var all := st.started + st.discarded + st.waiting;
    assert forall i | 0 <= i < |st.started| :: st.started[i] == all[i];
    assert forall i | 0 <= i < |st.waiting| :: st.waiting[i] == all[|st.started| + |st.discarded| + i];
  }

  lemma Located(a: seq<nat>, b: seq<nat>, c: seq<nat>, n: nat, t: nat)
    requires a + b + c == Iota(n)
    ensures t in a <==> t < |a|
    ensures t in b <==> |a| <= t < |a| + |b|
    ensures t in c <==> |a| + |b| <= t < n
  {
    var all := a + b + c;
    assert forall i | 0 <= i < |a| :: a[i] == all[i];
    assert forall i | 0 <= i < |b| :: b[i] == all[|a| + i];
    assert forall i | 0 <= i < |c| :: c[i] == all[|a| + |b| + i];
    if t < |a| { assert a[t] == t; }
    if |a| <= t < |a| + |b| { assert b[t - |a|] == t; }
    if |a| + |b| <= t < n { assert c[t - |a| - |b|] == t; }
  }

  /** How many of waiting, running, done and discarded hold for task `t`. */
  ghost function Phases(st: State, t: nat): nat {
    (if t in st.waiting then 1 else 0) + (if exists w: nat :: Runs(st.workers, w, t) then 1 else 0)
    + (if t in st.done then 1 else 0) + if t in st.discarded then 1 else 0
  }

  /** Every queued task, and no other, is in exactly one phase, and at most one worker runs it. */
  lemma ExactlyOnePhase(n: nat, steps: seq<Step>, st: State, t: nat)
    requires Run(Initial(n), steps, st)
    ensures Phases(st, t) == if t < st.queued then 1 else 0
    ensures forall v: nat, w: nat | Runs(st.workers, v, t) && Runs(st.workers, w, t) :: v == w
  {
    InitialInv(n);
    RunInv(Initial(n), steps, st);
    Located(st.started, st.discarded, st.waiting, st.queued, t);
  }

  /** Once the pool is stopping no task starts. */
  lemma {:induction false} NoneAfterStop(st: State, steps: seq<Step>, st': State)
    requires Run(st, steps, st') && st.stop
    ensures st'.stop && st'.started == st.started && st'.queued == st.queued
    decreases |steps|
  {
    if steps != [] { NoneAfterStop(Next(st, steps[0]), steps[1..], st'); }
  }

  /** Destroying the pool discards exactly the tasks that never started; all others are done. */
  lemma DestroyDiscards(n: nat, steps: seq<Step>, st: State, t: nat)
    requires Run(Initial(n), steps, st) && Enabled(st, Drain)
    ensures var st' := Next(st, Drain);
      && st'.waiting == []
      && (t in st'.discarded <==> t < st.queued && t !in st.started)
      && (t in st'.done <==> t in st.started)
  {
    var st' := Next(st, Drain);
    InitialInv(n);
    RunInv(Initial(n), steps, st);
    StepInv(st, Drain);
    Located(st'.started, st'.discarded, st'.waiting, st.queued, t);
    assert forall w: nat :: !Runs(st.workers, w, t);
  }

  // -------- the pool never gets stuck --------

  function EffortOf(x: Worker): nat {
    match x
    case Awake => 1
    case Returned => 2
    case Running(_) => 3
    case _ => 0
  }

  function Effort(ws: seq<Worker>): nat {
    if ws == [] then 0 else Effort(ws[..|ws| - 1]) + EffortOf(ws[|ws| - 1])
  }

  /** What is left to do: each waiting task still has to be taken, run and accounted for. */
  function Remaining(st: State): nat { 3 * |st.waiting| + Effort(st.workers) }

  lemma {:induction false} EffortUpdate(ws: seq<Worker>, w: nat, x: Worker)
    requires w < |ws|
    ensures Effort(ws[w := x]) + EffortOf(ws[w]) == Effort(ws) + EffortOf(x)
  {
    var last := |ws| - 1;
    if w == last {
      assert ws[w := x][..last] == ws[..last];
    } else {
      EffortUpdate(ws[..last], w, x);
      assert ws[w := x][..last] == ws[..last][w := x];
    }
  }

  /** The steps workers take on their own. */
  predicate IsProgress(step: Step) { step.Take? || step.Sleep? || step.Exit? || step.Return? || step.Finish? }

  lemma ProgressShrinks(st: State, step: Step)
    requires Enabled(st, step) && (IsProgress(step) || step.Wake?)
    ensures if step.Wake? then Remaining(Next(st, step)) == Remaining(st) + 1
      else Remaining(Next(st, step)) < Remaining(st)
  {
    EffortUpdate(st.workers, step.w, Next(st, step).workers[step.w]);
  }

  function Wakes(steps: seq<Step>): nat {
    if steps == [] then 0 else (if steps[0].Wake? then 1 else 0) + Wakes(steps[1..])
  }

  /** With no new calls, workers take boundedly many steps, however often they wake without reason. */
  lemma {:induction false} StepsBounded(st: State, steps: seq<Step>, st': State)
    requires Run(st, steps, st') && forall i | 0 <= i < |steps| :: IsProgress(steps[i]) || steps[i].Wake?
    ensures |steps| + Remaining(st') <= Remaining(st) + 2 * Wakes(steps)
    decreases |steps|
  {
    if steps != [] {
      ProgressShrinks(st, steps[0]);
      StepsBounded(Next(st, steps[0]), steps[1..], st');
    }
  }

  ghost predicate Settled(st: State) {
    forall step | IsProgress(step) :: !Enabled(st, step)
  }

  /** When no worker has a step left, a running pool has finished every queued task, and a stopping
      pool has let every worker go, so destroying it does not hang. */
  lemma SettledMeansFinished(n: nat, steps: seq<Step>, st: State)
    requires Run(Initial(n), steps, st) && Settled(st)
    ensures !st.stop && n > 0 ==> st.waiting == [] && forall t: nat :: t in st.done <==> t < st.queued
    ensures st.stop ==> Enabled(st, Drain)
  {
    InitialInv(n);
    RunInv(Initial(n), steps, st);
    RunSize(Initial(n), steps, st);
    var ws := st.workers;
    forall w: nat | w < |ws|
      ensures if st.stop then ws[w].Exited? else ws[w].Sleeping?
    {
      assert !Enabled(st, Return(w)) && !Enabled(st, Finish(w));
      assert !Enabled(st, Exit(w)) && !Enabled(st, Take(w)) && !Enabled(st, Sleep(w));
      if ws[w].Sleeping? { NumSome(ws, w, Asleep); }
      if ws[w].Exited? { NumSome(ws, w, Gone); }
    }
    if !st.stop && n > 0 {
      NumNone(ws, Idle);
      NumSome(ws, 0, Asleep);
      assert st.waiting == [];
      forall t: nat
        ensures t in st.done <==> t < st.queued
      {
        assert forall w: nat :: !Runs(ws, w, t);
      }
    }
  }

  lemma {:induction false} RunSize(st: State, steps: seq<Step>, st': State)
    requires Run(st, steps, st')
    ensures |st'.workers| == |st.workers|
    decreases |steps|
  {
    if steps != [] { RunSize(Next(st, steps[0]), steps[1..], st'); }
  }
}
