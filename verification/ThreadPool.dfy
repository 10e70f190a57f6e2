/** src/Thread/ThreadPool.cpp and src/Thread/ThreadPool.h: workers that share a
    queue, and a destructor that drains it.  What happens under the mutex is one
    step; notifying comes after it, as in the source. */
module ThreadPools {
  // Ready is about to take the lock and test the condition of the wait;
  // Waiting sleeps in it.
  datatype Worker = Ready | Waiting | Running(task: nat) | Exited

  datatype State = State(
    workers: seq<Worker>,
    tasks: seq<nat>,
    stop: bool,
    notified: bool,        // the destructor is past notify_all
    notifies: nat,         // calls of Add between unlocking and notify_one
    accepted: seq<nat>,    // history, and so on
    started: seq<nat>,
    done: seq<nat>)

  datatype Step =
    | Add(task: nat) | NotifyNobody | Notify(w: nat) | Spurious(w: nat)
    | Check(w: nat) | Finish(w: nat) | Stop | NotifyAll

  function Initial(size: nat): State {
    State(seq(size, _ => Ready), [], false, false, 0, [], [], [])
  }

  predicate Is(s: State, w: nat, k: Worker) {
    w < |s.workers| && s.workers[w] == k
  }

  predicate Enabled(s: State, step: Step) {
    match step
    case Add(_) => true
    // notify_one wakes some waiting worker, if there is one.
    case NotifyNobody => s.notifies > 0 && Waiting !in s.workers
    case Notify(w) => s.notifies > 0 && Is(s, w, Waiting)
    case Spurious(w) => Is(s, w, Waiting)
    case Check(w) => Is(s, w, Ready)
    case Finish(w) => w < |s.workers| && s.workers[w].Running?
    case Stop => !s.stop
    case NotifyAll => s.stop && !s.notified
  }

  function Put(s: State, w: nat, k: Worker): State {
    if w < |s.workers| then s.(workers := s.workers[w := k]) else s
  }

  function Woken(k: Worker): Worker {
    if k == Waiting then Ready else k
  }

  function AllWoken(ws: seq<Worker>): seq<Worker> {
    seq(|ws|, i requires 0 <= i < |ws| => Woken(ws[i]))
  }

  function Next(s: State, step: Step): State {
    match step
    case Add(t) =>
      if s.stop then s
      else s.(tasks := s.tasks + [t], accepted := s.accepted + [t], notifies := s.notifies + 1)
    case NotifyNobody => if s.notifies > 0 then s.(notifies := s.notifies - 1) else s
    case Notify(w) => if s.notifies > 0 then Put(s.(notifies := s.notifies - 1), w, Ready) else s
    case Spurious(w) => Put(s, w, Ready)
    case Check(w) =>
      if !s.stop && s.tasks == [] then Put(s, w, Waiting)
      else if s.tasks == [] then Put(s, w, Exited)
      else Put(s.(tasks := s.tasks[1..], started := s.started + [s.tasks[0]]), w, Running(s.tasks[0]))
    case Finish(w) =>
      if w < |s.workers| && s.workers[w].Running? then
        Put(s.(done := s.done + [s.workers[w].task]), w, Ready)
      else s
    case Stop => s.(stop := true)
    case NotifyAll => s.(notified := true, workers := AllWoken(s.workers))
  }

  /// Counting workers

  function Asleep(s: State): nat { multiset(s.workers)[Waiting] }

  function Awake(s: State): nat { multiset(s.workers)[Ready] }

  function InWork(ws: seq<Worker>, t: nat): nat { multiset(ws)[Running(t)] }

  // Replacing one worker changes the counts of its old and its new state.
  lemma PutCounts(ws: seq<Worker>, w: nat, k: Worker, x: Worker)
    requires w < |ws|
    ensures multiset(ws[w := k])[x] ==
      multiset(ws)[x] - (if ws[w] == x then 1 else 0) + (if k == x then 1 else 0)
    ensures x in ws[w := k] ==> x == k || x in ws
    ensures x in ws <==> multiset(ws)[x] > 0
  {
  }

  lemma Snoc(q: seq<nat>, x: nat, t: nat)
    ensures multiset(q + [x])[t] == multiset(q)[t] + (if x == t then 1 else 0)
  {
  }

  lemma {:induction false} WakingKeepsWork(ws: seq<Worker>, t: nat)
    ensures InWork(AllWoken(ws), t) == InWork(ws, t)
    decreases |ws|
  {
    if ws == [] {
    } else {
      var n := |ws| - 1;
      assert ws == ws[..n] + [ws[n]];
      assert AllWoken(ws) == AllWoken(ws[..n]) + [Woken(ws[n])];
      WakingKeepsWork(ws[..n], t);
    }
  }

  /// What every step keeps.

  // Started tasks are being run or done.
  predicate Balanced(s: State, t: nat) {
    InWork(s.workers, t) + multiset(s.done)[t] == multiset(s.started)[t]
  }

  // While anybody sleeps, every queued task has somebody awake or a
  // notification on its way.
  predicate Attended(s: State) {
    Asleep(s) == 0 || Awake(s) + s.notifies >= |s.tasks|
  }

  predicate Orderly(s: State) {
    // Tasks start in the order they were accepted, each once.
    && s.started + s.tasks == s.accepted
    && (Exited in s.workers ==> s.stop && s.tasks == [])
    && (s.notified ==> s.stop && Waiting !in s.workers)
  }

  ghost predicate Inv(s: State) {
    Orderly(s) && Attended(s) && forall t: nat :: Balanced(s, t)
  }

  lemma AddKeeps(s: State, t: nat)
    requires Inv(s)
    ensures Inv(Next(s, Add(t)))
  {
    assert s.started + (s.tasks + [t]) == s.accepted + [t];
    forall x: nat ensures Balanced(Next(s, Add(t)), x) { assert Balanced(s, x); }
  }

  // A worker moves between states in which it holds no task.
  lemma MoveKeeps(s: State, w: nat, k: Worker, notifies: nat)
    requires Inv(s) && w < |s.workers| && !s.workers[w].Running? && !k.Running?
    requires k == Exited ==> s.stop && s.tasks == []
    requires k == Waiting ==> !s.stop && s.tasks == []
    requires k == Ready ==> s.workers[w] == Waiting && s.notifies <= notifies + 1
    requires k != Ready ==> s.workers[w] == Ready && s.notifies == notifies
    ensures Inv(Put(s.(notifies := notifies), w, k))
  {
    PutCounts(s.workers, w, k, Ready);
    PutCounts(s.workers, w, k, Waiting);
    PutCounts(s.workers, w, k, Exited);
    var n := Put(s.(notifies := notifies), w, k);
    forall x: nat ensures Balanced(n, x) {
      assert Balanced(s, x);
      PutCounts(s.workers, w, k, Running(x));
    }
  }

  lemma TakeBalances(s: State, w: nat, x: nat)
    requires Is(s, w, Ready) && s.tasks != [] && Balanced(s, x)
    ensures Balanced(Next(s, Check(w)), x)
  {
    PutCounts(s.workers, w, Running(s.tasks[0]), Running(x));
    Snoc(s.started, s.tasks[0], x);
  }

  lemma TakeKeeps(s: State, w: nat)
    requires Inv(s) && Is(s, w, Ready) && s.tasks != []
    ensures Inv(Next(s, Check(w)))
  {
    var t, n := s.tasks[0], Next(s, Check(w));
    PutCounts(s.workers, w, Running(t), Ready);
    PutCounts(s.workers, w, Running(t), Waiting);
    PutCounts(s.workers, w, Running(t), Exited);
    assert s.started + [t] + s.tasks[1..] == s.started + s.tasks;
    hide Balanced;
    forall x: nat ensures Balanced(n, x) { TakeBalances(s, w, x); }
  }

  lemma FinishKeeps(s: State, w: nat)
    requires Inv(s) && Enabled(s, Finish(w))
    ensures Inv(Next(s, Finish(w)))
  {
    var n := Next(s, Finish(w));
    PutCounts(s.workers, w, Ready, Ready);
    PutCounts(s.workers, w, Ready, Waiting);
    PutCounts(s.workers, w, Ready, Exited);
    forall x: nat ensures Balanced(n, x) {
      assert Balanced(s, x);
      PutCounts(s.workers, w, Ready, Running(x));
      Snoc(s.done, s.workers[w].task, x);
    }
  }

  lemma NotifyAllKeeps(s: State)
    requires Inv(s) && Enabled(s, NotifyAll)
    ensures Inv(Next(s, NotifyAll))
  {
    var n, ws := Next(s, NotifyAll), AllWoken(s.workers);
    assert Waiting !in ws;
    assert Asleep(n) == 0;
    if Exited in ws {
      var i :| 0 <= i < |ws| && ws[i] == Exited;
      assert s.workers[i] == Exited;
    }
    forall x: nat ensures Balanced(n, x) {
      assert Balanced(s, x);
      WakingKeepsWork(s.workers, x);
    }
  }

  lemma StepKeeps(s: State, step: Step)
    requires Inv(s) && Enabled(s, step)
    ensures Inv(Next(s, step))
  {
    match step {
      case Add(t) => AddKeeps(s, t);
      case NotifyNobody =>
        assert Asleep(s) == 0;
        forall x: nat ensures Balanced(Next(s, step), x) { assert Balanced(s, x); }
      case Notify(w) => MoveKeeps(s, w, Ready, s.notifies - 1);
      case Spurious(w) => MoveKeeps(s, w, Ready, s.notifies);
      case Check(w) =>
        if s.tasks != [] { TakeKeeps(s, w); } else { MoveKeeps(s, w, if s.stop then Exited else Waiting, s.notifies); }
      case Finish(w) => FinishKeeps(s, w);
      case Stop => forall x: nat ensures Balanced(Next(s, step), x) { assert Balanced(s, x); }
      case NotifyAll => NotifyAllKeeps(s);
    }
  }

  /// Runs

  predicate Legal(s: State, run: seq<Step>)
    decreases |run|
  {
    run == [] || (Enabled(s, run[0]) && Legal(Next(s, run[0]), run[1..]))
  }

  function Final(s: State, run: seq<Step>): State
    decreases |run|
  {
    if run == [] then s else Final(Next(s, run[0]), run[1..])
  }

  // The tasks added before the pool was stopped, in order.
  function Submitted(run: seq<Step>): seq<nat> {
    if run == [] then []
    else match run[0]
      case Add(t) => [t] + Submitted(run[1..])
      case Stop => []
      case _ => Submitted(run[1..])
  }

  // How often notify_one was called.
  function Notifications(run: seq<Step>): nat {
    if run == [] then 0 else Notifications(run[1..]) + if run[0].Notify? || run[0].NotifyNobody? then 1 else 0
  }

  lemma StepSubmits(s: State, step: Step)
    requires Enabled(s, step)
    ensures var t := Next(s, step);
      && (t.stop <==> s.stop || step.Stop?) && (t.notified <==> s.notified || step.NotifyAll?)
      && t.accepted == s.accepted + (if step.Add? && !s.stop then [step.task] else [])
      && t.notifies + (if step.Notify? || step.NotifyNobody? then 1 else 0) ==
         s.notifies + (if step.Add? && !s.stop then 1 else 0)
  {
  }

  lemma {:induction false} RunSubmits(s: State, run: seq<Step>)
    requires Legal(s, run)
    ensures var t, all := Final(s, run), if s.stop then [] else Submitted(run);
      t.accepted == s.accepted + all && t.notifies + Notifications(run) == s.notifies + |all|
    decreases |run|
  {
    hide Enabled, Next;
    if run == [] {
    } else {
      StepSubmits(s, run[0]);
      RunSubmits(Next(s, run[0]), run[1..]);
    }
  }

  lemma {:induction false} RunStops(s: State, run: seq<Step>)
    requires Legal(s, run)
    ensures Final(s, run).stop <==> s.stop || Stop in run
    ensures Final(s, run).notified <==> s.notified || NotifyAll in run
    decreases |run|
  {
    hide Enabled, Next;
    if run == [] {
    } else {
      StepSubmits(s, run[0]);
      RunStops(Next(s, run[0]), run[1..]);
      assert run == [run[0]] + run[1..];
    }
  }

  lemma {:induction false} RunKeeps(s: State, run: seq<Step>)
    requires Inv(s) && Legal(s, run)
    ensures Inv(Final(s, run)) && |Final(s, run).workers| == |s.workers|
    decreases |run|
  {
    hide Inv, Enabled;
    if run == [] {
    } else {
      StepKeeps(s, run[0]);
      RunKeeps(Next(s, run[0]), run[1..]);
    }
  }

  lemma InitialInv(size: nat)
    ensures Inv(Initial(size))
  {
  }

  // First in, first started, each exactly once; nothing in flight is forgotten,
  // and for each task there is one call of notify_one.
  lemma StartedInOrder(size: nat, run: seq<Step>)
    requires Legal(Initial(size), run)
    ensures var s := Final(Initial(size), run);
      && s.started + s.tasks == Submitted(run) && Notifications(run) + s.notifies == |Submitted(run)|
      && forall t: nat ::
           multiset(Submitted(run))[t] == multiset(s.tasks)[t] + InWork(s.workers, t) + multiset(s.done)[t]
  {
    InitialInv(size);
    RunKeeps(Initial(size), run);
    RunSubmits(Initial(size), run);
    var s := Final(Initial(size), run);
    hide Legal, Final, Submitted;
    assert multiset(s.accepted) == multiset(s.started) + multiset(s.tasks);
    forall t: nat ensures multiset(s.accepted)[t] == multiset(s.tasks)[t] + InWork(s.workers, t) + multiset(s.done)[t] {
      assert Balanced(s, t);
    }
  }

  // Work never waits for workers that all sleep with no notification on its way.
  lemma NoLostWakeup(size: nat, run: seq<Step>)
    requires Legal(Initial(size), run)
    ensures var s := Final(Initial(size), run);
      && Attended(s)
      && (s.tasks != [] && Waiting in s.workers ==> Ready in s.workers || s.notifies > 0)
  {
    InitialInv(size);
    RunKeeps(Initial(size), run);
    var s := Final(Initial(size), run);
    hide Legal, Final;
    assert Waiting in s.workers ==> Asleep(s) > 0;
  }

  predicate AllExited(s: State) {
    forall i | 0 <= i < |s.workers| :: s.workers[i] == Exited
  }

  // When the joins return, every accepted task is done, unless there never was
  // a worker to do it.
  lemma DestructorDrains(size: nat, run: seq<Step>)
    requires Legal(Initial(size), run) && NotifyAll in run && AllExited(Final(Initial(size), run))
    ensures var s := Final(Initial(size), run);
      multiset(s.done) == multiset(Submitted(run)) <==> size > 0 || Submitted(run) == []
  {
    InitialInv(size);
    RunKeeps(Initial(size), run);
    RunSubmits(Initial(size), run);
    RunStops(Initial(size), run);
    var s := Final(Initial(size), run);
    hide Legal, Final, Submitted;
    if size > 0 {
      assert s.workers[0] == Exited;
      assert s.started + [] == s.started;
      forall x: nat ensures multiset(s.done)[x] == multiset(s.accepted)[x] {
        assert Balanced(s, x) && Running(x) !in s.workers;
      }
    } else {
      NothingRuns(run);
      assert s.accepted != [] ==> s.accepted[0] in multiset(s.accepted);
    }
  }

  lemma {:induction false} NothingStarts(s: State, run: seq<Step>)
    requires s.workers == [] && Legal(s, run)
    ensures Final(s, run).done == s.done
    decreases |run|
  {
    if run == [] {
    } else {
      NothingStarts(Next(s, run[0]), run[1..]);
    }
  }

  lemma NothingRuns(run: seq<Step>)
    requires Legal(Initial(0), run)
    ensures Final(Initial(0), run).done == []
  {
    NothingStarts(Initial(0), run);
  }

  // Nobody but a waiting worker is ever blocked: tasks can be added, calls of
  // notify_one can be made, workers that are awake go on.
  lemma OnlyTheWaitBlocks(s: State, w: nat, t: nat)
    ensures Enabled(s, Add(t))
    ensures s.notifies > 0 ==>
      if exists i: nat :: Is(s, i, Waiting) then exists i: nat :: Is(s, i, Waiting) && Enabled(s, Notify(i))
      else Enabled(s, NotifyNobody)
    ensures w < |s.workers| ==>
      match s.workers[w]
      case Ready => Enabled(s, Check(w))
      case Running(_) => Enabled(s, Finish(w))
      case _ => !Enabled(s, Check(w)) && !Enabled(s, Finish(w))
  {
    if s.notifies > 0 && Waiting in s.workers {
      var i: nat :| i < |s.workers| && s.workers[i] == Waiting;
      assert Is(s, i, Waiting) && Enabled(s, Notify(i));
    }
  }

  /// The destructor does not wait for ever.

  function Cost(k: Worker): nat {
    match k case Running(_) => 2 case Ready => 1 case _ => 0
  }

  function Weight(ws: seq<Worker>): nat {
    if ws == [] then 0 else Cost(ws[0]) + Weight(ws[1..])
  }

  lemma {:induction false} WeightUpdate(ws: seq<Worker>, w: nat, k: Worker)
    requires w < |ws|
    ensures Weight(ws[w := k]) + Cost(ws[w]) == Weight(ws) + Cost(k)
    decreases |ws|
  {
    if w == 0 {
      assert ws[0 := k][1..] == ws[1..];
    } else {
      assert ws[w := k][1..] == ws[1..][w - 1 := k];
      WeightUpdate(ws[1..], w - 1, k);
    }
  }

  function StepsLeft(s: State): nat {
    3 * |s.tasks| + Weight(s.workers)
  }

  predicate WorkerStep(step: Step) {
    step.Check? || step.Finish?
  }

  // After notify_all every step of a worker brings the joins nearer, and until
  // they all return some worker can take one.
  lemma JoinsComeNearer(s: State, step: Step)
    requires Inv(s) && s.notified && Enabled(s, step) && WorkerStep(step)
    ensures StepsLeft(Next(s, step)) < StepsLeft(s) && Next(s, step).notified
  {
    var w := step.w;
    WeightUpdate(s.workers, w, Next(s, step).workers[w]);
    hide Weight;
  }

  lemma SomebodyCanMove(s: State)
    requires Inv(s) && s.notified && !AllExited(s)
    ensures exists w: nat :: Enabled(s, Check(w)) || Enabled(s, Finish(w))
  {
    var w: nat :| w < |s.workers| && s.workers[w] != Exited;
    assert s.workers[w] in s.workers;
    assert Enabled(s, Check(w)) || Enabled(s, Finish(w));
  }

  /// The class, one method for each step.

  class ThreadPool {
    var workers: seq<Worker>
    var tasks: seq<nat>
    var stop: bool
    ghost var notified: bool
    ghost var notifies: nat
    ghost var accepted: seq<nat>
    ghost var started: seq<nat>
    ghost var finished: seq<nat>

    ghost function View(): State
      reads this
    {
      State(workers, tasks, stop, notified, notifies, accepted, started, finished)
    }

    constructor (size: nat)
      ensures View() == Initial(size) && Inv(View())
    {
      workers, tasks, stop := seq(size, _ => Ready), [], false;
      notified, notifies, accepted, started, finished := false, 0, [], [], [];
      new;
      InitialInv(size);
    }

    // Add throws after stop; its notify_one comes after the lock is released.
    method AddTask(task: nat) returns (added: bool)
      requires Inv(View())
      modifies this
      ensures View() == Next(old(View()), Step.Add(task)) && Inv(View()) && added == !old(stop)
      ensures tasks == old(tasks) + (if added then [task] else []) && workers == old(workers)
    {
      AddKeeps(View(), task);
      if stop {
        return false;
      }
      tasks := tasks + [task];
      accepted, notifies := accepted + [task], notifies + 1;
      return true;
    }

    method NotifyOne(w: nat)
      requires Inv(View()) && Enabled(View(), if Waiting in workers then Step.Notify(w) else Step.NotifyNobody)
      modifies this
      ensures View() == Next(old(View()), if old(Waiting in workers) then Step.Notify(w) else Step.NotifyNobody)
      ensures Inv(View())
    {
      StepKeeps(View(), if Waiting in workers then Step.Notify(w) else Step.NotifyNobody);
      if Waiting in workers { workers := workers[w := Ready]; }
      notifies := notifies - 1;
    }

    // The locked part of the worker loop: it waits, returns, or takes a task.
    method TakeTask(w: nat)
      requires Inv(View()) && Enabled(View(), Check(w))
      modifies this
      ensures View() == Next(old(View()), Check(w)) && Inv(View())
    {
      StepKeeps(View(), Check(w));
      if !(stop || tasks != []) {
        workers := workers[w := Waiting];
      } else if stop && tasks == [] {
        workers := workers[w := Exited];
      } else {
        var task := tasks[0];
        tasks := tasks[1..];
        started := started + [task];
        workers := workers[w := Running(task)];
      }
    }

    // task() returns.
    method FinishTask(w: nat)
      requires Inv(View()) && Enabled(View(), Finish(w))
      modifies this
      ensures View() == Next(old(View()), Finish(w)) && Inv(View())
    {
      StepKeeps(View(), Finish(w));
      finished := finished + [workers[w].task];
      workers := workers[w := Ready];
    }

    method SetStop()
      requires Inv(View()) && Enabled(View(), Stop)
      modifies this
      ensures View() == Next(old(View()), Stop) && Inv(View())
    {
      StepKeeps(View(), Stop);
      stop := true;
    }

    method WakeAll()
      requires Inv(View()) && Enabled(View(), NotifyAll)
      modifies this
      ensures View() == Next(old(View()), NotifyAll) && Inv(View())
    {
      StepKeeps(View(), NotifyAll);
      ghost var ws := workers;
      var i := 0;
      while i < |workers|
        invariant i <= |workers| == |ws|
        invariant forall j | 0 <= j < |ws| :: workers[j] == if j < i then Woken(ws[j]) else ws[j]
        modifies this`workers
      {
        if workers[i] == Waiting { workers := workers[i := Ready]; }
        i := i + 1;
      }
      assert workers == AllWoken(ws);
      notified := true;
    }
  }
}
