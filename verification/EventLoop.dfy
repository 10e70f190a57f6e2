/** src/Event/EventLoop.cpp: the to-do list of a loop, filled by any thread, and
    the eventfd that wakes the loop.  A step is what one thread does between two
    points at which another may interleave. */
module EventLoops {
  // Where the loop thread is: before Loop, blocked in Poll, handling active
  // channels, about to swap the list, or running what it swapped out.
  datatype Place = Outside | Polling | Handling | Swapping | Running

  datatype State = State(
    place: Place,
    calling: bool,            // calling_functors_
    todo: seq<nat>,           // to_do_list_
    counter: nat,             // of the eventfd
    writers: nat,             // other threads between their push and their write
    ownerWrites: bool,        // the loop thread between its push and its write
    readable: bool,           // the wakeup channel is active and not handled yet
    functors: seq<nat>,       // swapped out and not run yet
    executed: seq<nat>,       // history
    enqueued: seq<nat>)       // history

  datatype Step =
    | Start | Push(f: nat) | Write | OwnerPush(f: nat) | OwnerWrite
    | PollReturns(wakeup: bool) | HandleRead | BeginToDo | Swap | RunNext | EndToDo

  const INITIAL := State(Outside, false, [], 0, 0, false, false, [], [], [])

  predicate Enabled(s: State, step: Step) {
    match step
    case Start => s.place == Outside
    case Push(_) => true
    case Write => s.writers > 0
    // User code of the loop thread runs in handlers and functors, or before Loop.
    case OwnerPush(_) => s.place in {Outside, Handling, Running} && !s.ownerWrites
    case OwnerWrite => s.ownerWrites
    // Other channels may end the wait too; a readable eventfd always does.
    case PollReturns(wakeup) => s.place == Polling && (wakeup ==> s.counter > 0)
    case HandleRead => s.place == Handling && s.readable
    case BeginToDo => s.place == Handling && !s.readable
    case Swap => s.place == Swapping
    case RunNext => s.place == Running && !s.ownerWrites && s.functors != []
    case EndToDo => s.place == Running && !s.ownerWrites && s.functors == []
  }

  function Next(s: State, step: Step): State {
    match step
    case Start => s.(place := Polling)
    case Push(f) => s.(todo := s.todo + [f], enqueued := s.enqueued + [f], writers := s.writers + 1)
    case Write => if s.writers > 0 then s.(counter := s.counter + 1, writers := s.writers - 1) else s
    case OwnerPush(f) => s.(todo := s.todo + [f], enqueued := s.enqueued + [f], ownerWrites := s.calling)
    case OwnerWrite => s.(counter := s.counter + 1, ownerWrites := false)
    case PollReturns(wakeup) => s.(place := Handling, readable := wakeup)
    case HandleRead => s.(counter := 0, readable := false)
    case BeginToDo => s.(place := Swapping, calling := true)
    case Swap => s.(place := Running, functors := s.todo, todo := s.functors)
    case RunNext => if s.functors == [] then s else s.(functors := s.functors[1..], executed := s.executed + [s.functors[0]])
    case EndToDo => s.(place := Polling, calling := false)
  }

  /// What every step keeps.

  predicate Woken(s: State) {
    s.counter > 0 || s.writers > 0 || s.ownerWrites
  }

  // Work to do, and nothing on its way that says so.
  predicate Unheard(s: State) {
    s.todo != [] && !Woken(s)
  }

  predicate Orderly(s: State) {
    && (s.calling <==> s.place in {Swapping, Running})
    && s.executed + s.functors + s.todo == s.enqueued
    && (s.functors != [] ==> s.place == Running)
    && (s.readable ==> s.place == Handling && s.counter > 0)
    && (s.ownerWrites ==> s.place == Running)
  }

  lemma OrderKept(s: State, step: Step)
    requires Orderly(s) && Enabled(s, step)
    ensures Orderly(Next(s, step))
  {
  }

  predicate Inv(s: State) {
    Orderly(s) && (s.place in {Outside, Polling, Running} ==> !Unheard(s))
  }

  // The loop thread queues from inside the loop body, or when somebody else
  // is about to wake it anyway.
  predicate InsideLoop(s: State, step: Step) {
    step.OwnerPush? ==> s.place != Outside || s.counter > 0 || s.writers > 0
  }

  lemma StepKeepsExactly(s: State, step: Step)
    requires Inv(s) && Enabled(s, step)
    ensures Inv(Next(s, step)) <==> InsideLoop(s, step)
  {
  }

  /// Runs

  predicate Legal(s: State, run: seq<Step>)
    decreases |run|
  {
    run == [] || (Enabled(s, run[0]) && Legal(Next(s, run[0]), run[1..]))
  }

  function Final(s: State, run: seq<Step>): State
    decreases |run|
  {
    if run == [] then s else Final(Next(s, run[0]), run[1..])
  }

  // What anybody queued in a run, in order.
  function Queued(run: seq<Step>): seq<nat> {
    if run == [] then []
    else match run[0]
      case Push(f) => [f] + Queued(run[1..])
      case OwnerPush(f) => [f] + Queued(run[1..])
      case _ => Queued(run[1..])
  }

  // How many functors other threads queued, and how often they wrote.
  function Pushes(run: seq<Step>): nat {
    if run == [] then 0 else Pushes(run[1..]) + if run[0].Push? then 1 else 0
  }

  function Writes(run: seq<Step>): nat {
    if run == [] then 0 else Writes(run[1..]) + if run[0].Write? then 1 else 0
  }

  lemma StepQueues(s: State, step: Step)
    requires Enabled(s, step)
    ensures Next(s, step).enqueued == s.enqueued + if step.Push? || step.OwnerPush? then [step.f] else []
    ensures Next(s, step).writers == s.writers + (if step.Push? then 1 else 0) - (if step.Write? then 1 else 0)
  {
  }

  lemma {:induction false} OrderlyRun(s: State, run: seq<Step>)
    requires Orderly(s) && Legal(s, run)
    ensures Orderly(Final(s, run))
    decreases |run|
  {
    hide Orderly, Enabled, Next;
    if run == [] {
    } else {
      OrderKept(s, run[0]);
      OrderlyRun(Next(s, run[0]), run[1..]);
    }
  }

  lemma {:induction false} RunQueues(s: State, run: seq<Step>)
    requires Legal(s, run)
    ensures Final(s, run).enqueued == s.enqueued + Queued(run)
    ensures Final(s, run).writers + Writes(run) == s.writers + Pushes(run)
    decreases |run|
  {
    hide Enabled, Next;
    if run == [] {
    } else {
      var t, rest := Next(s, run[0]), Queued(run[1..]);
      StepQueues(s, run[0]);
      RunQueues(t, run[1..]);
      assert Final(s, run) == Final(t, run[1..]);
      assert s.enqueued + [] + rest == s.enqueued + rest;
    }
  }

  // Functors run in the order they were queued, none lost and none twice, each
  // queued by another thread writes once, and the read of the eventfd succeeds.
  lemma ExactOrder(run: seq<Step>)
    requires Legal(INITIAL, run)
    ensures var s := Final(INITIAL, run);
      s.executed + s.functors + s.todo == Queued(run) && Writes(run) + s.writers == Pushes(run)
      && (Enabled(s, HandleRead) ==> s.counter > 0)
  {
    OrderlyRun(INITIAL, run);
    RunQueues(INITIAL, run);
  }

  predicate ByLoop(step: Step) {
    step.Start? || step.OwnerWrite? || step.PollReturns? || step.HandleRead? || step.BeginToDo? || step.Swap? || step.RunNext?
    || step.EndToDo?
  }

  // Other threads are never blocked, and the loop thread only in Poll, until the
  // eventfd is readable.
  lemma OnlyPollWaits(run: seq<Step>, f: nat)
    requires Legal(INITIAL, run)
    ensures var s := Final(INITIAL, run);
      && Enabled(s, Push(f)) && (s.writers > 0 ==> Enabled(s, Write))
      && if s.place == Polling then s.counter > 0 <==> Enabled(s, PollReturns(true))
         else exists step :: ByLoop(step) && Enabled(s, step)
  {
    OrderlyRun(INITIAL, run);
    var s := Final(INITIAL, run);
    var step := match s.place
      case Outside => Start
      case Polling => PollReturns(true)
      case Handling => if s.readable then HandleRead else BeginToDo
      case Swapping => Swap
      case Running => if s.ownerWrites then OwnerWrite else if s.functors != [] then RunNext else EndToDo;
    assert ByLoop(step) && (s.place != Polling ==> Enabled(s, step));
  }

  // What the steps of a run alone say: the writes to the eventfd not read yet,
  // whether functors are being run, and whether the loop thread owes a write,
  // having queued while they were.
  datatype Note = Note(unread: nat, inFunctors: bool, owes: bool)

  function Noted(n: Note, run: seq<Step>): Note
    decreases |run|
  {
    if run == [] then n
    else
      Noted(match run[0]
            case Write => n.(unread := n.unread + 1)
            case OwnerWrite => n.(unread := n.unread + 1, owes := false)
            case OwnerPush(_) => n.(owes := n.inFunctors)
            case HandleRead => n.(unread := 0)
            case BeginToDo => n.(inFunctors := true)
            case EndToDo => n.(inFunctors := false)
            case _ => n, run[1..])
  }

  lemma {:induction false} RunNotes(s: State, run: seq<Step>)
    requires Legal(s, run)
    ensures var t := Final(s, run);
      Note(t.counter, t.calling, t.ownerWrites) == Noted(Note(s.counter, s.calling, s.ownerWrites), run)
    decreases |run|
  {
    if run == [] {
    } else {
      RunNotes(Next(s, run[0]), run[1..]);
    }
  }

  // Each wakeup is counted until it is read, and the loop thread writes for what
  // it queues from inside a functor.
  lemma WakeupsCounted(run: seq<Step>)
    requires Legal(INITIAL, run)
    ensures var s := Final(INITIAL, run);
      Note(s.counter, s.calling, s.ownerWrites) == Noted(Note(0, false, false), run)
  {
    RunNotes(INITIAL, run);
  }

  // Before Poll first returns nothing is read from the eventfd and nothing runs.
  predicate Early(s: State) {
    Orderly(s) && s.place in {Outside, Polling} && s.executed == [] && s.functors == []
  }

  // From then on nothing is left unheard.
  predicate Late(s: State) {
    Inv(s) && s.place != Outside
  }

  predicate Polled(run: seq<Step>) {
    exists step | step in run :: step.PollReturns?
  }

  predicate PushedByOther(run: seq<Step>) {
    exists step | step in run :: step.Push?
  }

  predicate PushedByOwner(run: seq<Step>) {
    exists step | step in run :: step.OwnerPush?
  }

  lemma HeadAndTail(run: seq<Step>)
    requires run != []
    ensures Polled(run) <==> run[0].PollReturns? || Polled(run[1..])
    ensures PushedByOther(run) <==> run[0].Push? || PushedByOther(run[1..])
    ensures PushedByOwner(run) <==> run[0].OwnerPush? || PushedByOwner(run[1..])
  {
    assert run == [run[0]] + run[1..];
  }

  lemma EarlyStep(s: State, step: Step)
    requires Early(s) && Enabled(s, step)
    ensures var t := Next(s, step);
      if step.PollReturns? then Late(t)
      else
        && Early(t)
        && (t.counter + t.writers > 0 <==> s.counter + s.writers > 0 || step.Push?)
        && (t.enqueued != [] <==> s.enqueued != [] || step.Push? || step.OwnerPush?)
  {
  }

  lemma {:induction false} LateRun(s: State, run: seq<Step>)
    requires Late(s) && Legal(s, run)
    ensures Late(Final(s, run))
    decreases |run|
  {
    hide Inv, Enabled;
    if run == [] {
    } else {
      StepKeepsExactly(s, run[0]);
      LateRun(Next(s, run[0]), run[1..]);
    }
  }

  lemma {:induction false} EarlyRun(s: State, run: seq<Step>)
    requires Early(s) && Legal(s, run)
    ensures var t := Final(s, run);
      if Polled(run) then Late(t)
      else
        && Early(t)
        && (t.counter + t.writers > 0 <==> s.counter + s.writers > 0 || PushedByOther(run))
        && (t.enqueued != [] <==> s.enqueued != [] || PushedByOther(run) || PushedByOwner(run))
    decreases |run|
  {
    hide Early, Late, Enabled, Next, Polled, PushedByOther, PushedByOwner;
    if run == [] {
      NothingSeen();
    } else {
      HeadAndTail(run);
      EarlyStep(s, run[0]);
      if run[0].PollReturns? {
        LateRun(Next(s, run[0]), run[1..]);
      } else {
        EarlyRun(Next(s, run[0]), run[1..]);
      }
    }
  }

  lemma NothingSeen()
    ensures !Polled([]) && !PushedByOther([]) && !PushedByOwner([])
  {
  }

  // A loop blocked in Poll with work to do will be woken: the eventfd is
  // readable, or some thread is about to make it so.  There is one exception,
  // a loop that was never woken, given work by its own thread only.
  lemma WakeupLostExactly(run: seq<Step>)
    requires Legal(INITIAL, run) && Final(INITIAL, run).place == Polling
    ensures Unheard(Final(INITIAL, run)) <==> !Polled(run) && !PushedByOther(run) && PushedByOwner(run)
  {
    hide Legal, Final, Polled, PushedByOther, PushedByOwner;
    EarlyRun(INITIAL, run);
    var s := Final(INITIAL, run);
    assert !Polled(run) ==> s.todo == s.enqueued by {
      assert [] + [] + s.todo == s.todo;
    }
  }

  // The shortest such run: the functor waits for somebody else's wakeup.
  lemma QueuedTooEarly(f: nat)
    ensures Legal(INITIAL, [OwnerPush(f), Start])
    ensures var s := Final(INITIAL, [OwnerPush(f), Start]);
      s.place == Polling && s.todo == [f] && Unheard(s) && !Enabled(s, PollReturns(true))
  {
    var s1 := Next(INITIAL, OwnerPush(f));
    var s2 := Next(s1, Start);
    assert [OwnerPush(f), Start][1..] == [Start] && [Start][1..] == [];
    assert Final(INITIAL, [OwnerPush(f), Start]) == Final(s1, [Start]) == Final(s2, []);
  }

  /// Draining

  lemma {:induction false} RunsJoin(s: State, a: seq<Step>, b: seq<Step>)
    requires Legal(s, a) && Legal(Final(s, a), b)
    ensures Legal(s, a + b) && Final(s, a + b) == Final(Final(s, a), b)
    decreases |a|
  {
    hide Enabled, Next;
    if a == [] {
      assert a + b == b;
    } else {
      RunsJoin(Next(s, a[0]), a[1..], b);
      assert (a + b)[1..] == a[1..] + b;
    }
  }

  lemma {:induction false} RunsOut(s: State) returns (run: seq<Step>)
    requires s.place == Running && !s.ownerWrites
    ensures Legal(s, run) && Final(s, run) == s.(functors := [], executed := s.executed + s.functors)
    ensures forall step | step in run :: step == RunNext
    decreases |s.functors|
  {
    if s.functors == [] {
      assert s.executed + s.functors == s.executed;
      run := [];
    } else {
      var t := Next(s, RunNext);
      var rest := RunsOut(t);
      run := [RunNext] + rest;
      assert run[1..] == rest;
      assert s.executed + [s.functors[0]] + s.functors[1..] == s.executed + s.functors;
    }
  }

  lemma One(s: State, a: Step)
    requires Enabled(s, a)
    ensures Legal(s, [a]) && Final(s, [a]) == Next(s, a)
  {
  }

  lemma Two(s: State, a: Step, b: Step)
    requires Enabled(s, a) && Enabled(Next(s, a), b)
    ensures Legal(s, [a, b]) && Final(s, [a, b]) == Next(Next(s, a), b)
  {
    hide Enabled, Next;
    One(s, a);
    One(Next(s, a), b);
    RunsJoin(s, [a], [b]);
    assert [a] + [b] == [a, b];
  }

  // Nobody queues anything, and no other channel ends the wait.
  predicate Alone(run: seq<Step>) {
    forall step | step in run :: !step.Push? && !step.OwnerPush? && step != PollReturns(false)
  }

  // The loop is back in Poll with everything done.
  predicate Drained(s: State, run: seq<Step>, all: seq<nat>) {
    Legal(s, run) && Alone(run) && Final(s, run).place == Polling && Final(s, run).executed == all
  }

  // Poll returns, the eventfd is read and the list taken.
  lemma WakesUp(s: State) returns (run: seq<Step>)
    requires Orderly(s) && s.place == Polling && s.counter > 0
    ensures Legal(s, run) && Alone(run)
    ensures Final(s, run) == s.(place := Running, calling := true, counter := 0, todo := [], functors := s.todo)
  {
    var h := Next(Next(s, PollReturns(true)), HandleRead);
    Two(s, PollReturns(true), HandleRead);
    Two(h, BeginToDo, Swap);
    hide Legal, Final;
    RunsJoin(s, [PollReturns(true), HandleRead], [BeginToDo, Swap]);
    run := [PollReturns(true), HandleRead] + [BeginToDo, Swap];
  }

  lemma WakesAndDrains(s: State) returns (run: seq<Step>)
    requires Orderly(s) && s.place == Polling && s.counter > 0
    ensures Drained(s, run, s.enqueued)
  {
    var wake := WakesUp(s);
    var r := Final(s, wake);
    hide Legal, Final;
    var work := RunsOut(r);
    var e := Final(r, work);
    One(e, EndToDo);
    RunsJoin(s, wake, work);
    RunsJoin(s, wake + work, [EndToDo]);
    run := wake + work + [EndToDo];
    assert s.executed + [] + s.todo == s.executed + s.todo;
  }

  lemma NothingToDo(s: State)
    requires Orderly(s) && s.place == Polling && s.todo == []
    ensures Drained(s, [], s.enqueued)
  {
    assert s.executed + [] + [] == s.executed;
  }

  lemma WritesAndDrains(s: State) returns (run: seq<Step>)
    requires Orderly(s) && s.place == Polling && s.writers > 0
    ensures Drained(s, run, s.enqueued)
  {
    OrderKept(s, Write);
    var rest := WakesAndDrains(Next(s, Write));
    One(s, Write);
    hide Legal, Final;
    RunsJoin(s, [Write], rest);
    run := [Write] + rest;
  }

  // No step of the threads on their way is left.
  lemma UnheardIsStuck(s: State, run: seq<Step>)
    requires Orderly(s) && s.place == Polling && Unheard(s)
    ensures !Drained(s, run, s.enqueued)
  {
    if run != [] {
      assert run[0] in run;
    } else {
      assert |s.executed + s.functors + s.todo| == |s.enqueued|;
    }
  }

  // However a run went, the threads already on their way finish all that is
  // queued while the loop is in Poll, if and only if that is not unheard.
  lemma DrainsExactly(before: seq<Step>)
    requires Legal(INITIAL, before) && Final(INITIAL, before).place == Polling
    ensures var s := Final(INITIAL, before);
      (exists run :: Drained(s, run, Queued(before))) <==> !Unheard(s)
  {
    OrderlyRun(INITIAL, before);
    RunQueues(INITIAL, before);
    var s := Final(INITIAL, before);
    hide Drained, Legal, Final, Orderly;
    assert s.enqueued == Queued(before);
    if Unheard(s) {
      forall run ensures !Drained(s, run, s.enqueued) { UnheardIsStuck(s, run); }
    } else if s.todo == [] {
      NothingToDo(s);
      assert Drained(s, [], Queued(before));
    } else if s.counter > 0 {
      var run := WakesAndDrains(s);
    } else {
      var run := WritesAndDrains(s);
    }
  }

  /// The class, one method for each step.

  class EventLoop {
    var place: Place
    var callingFunctors: bool
    var toDoList: seq<nat>
    var wakeupCounter: nat
    var writers: nat
    var ownerWrites: bool
    var wakeupActive: bool
    var functors: seq<nat>
    ghost var executed: seq<nat>
    ghost var enqueued: seq<nat>

    ghost function View(): State
      reads this
    {
      State(place, callingFunctors, toDoList, wakeupCounter, writers, ownerWrites, wakeupActive, functors, executed, enqueued)
    }

    constructor ()
      ensures View() == INITIAL && Orderly(View())
    {
      place, callingFunctors, toDoList, wakeupCounter, writers, ownerWrites := Outside, false, [], 0, 0, false;
      wakeupActive, functors, executed, enqueued := false, [], [], [];
    }

    // QueueOneFunc up to the write; the answer says whether a write follows.
    method QueueOneFunc(f: nat, inLoopThread: bool) returns (wakes: bool)
      requires Orderly(View()) && Enabled(View(), if inLoopThread then OwnerPush(f) else Push(f))
      modifies this
      ensures View() == Next(old(View()), if inLoopThread then OwnerPush(f) else Push(f)) && Orderly(View())
      ensures toDoList == old(toDoList) + [f] && functors == old(functors)
      ensures wakes <==> !inLoopThread || callingFunctors
    {
      OrderKept(View(), if inLoopThread then OwnerPush(f) else Push(f));
      toDoList, enqueued := toDoList + [f], enqueued + [f];
      wakes := !inLoopThread || callingFunctors;
      if wakes {
        if inLoopThread { ownerWrites := true; } else { writers := writers + 1; }
      }
    }

    // Its write to the eventfd.
    method Wakeup(inLoopThread: bool)
      requires Orderly(View()) && Enabled(View(), if inLoopThread then OwnerWrite else Write)
      modifies this
      ensures View() == Next(old(View()), if inLoopThread then OwnerWrite else Write) && Orderly(View())
    {
      OrderKept(View(), if inLoopThread then OwnerWrite else Write);
      wakeupCounter := wakeupCounter + 1;
      if inLoopThread { ownerWrites := false; } else { writers := writers - 1; }
    }

    // Loop starts, or Poll returns with the active channels.
    method Loop()
      requires Orderly(View()) && Enabled(View(), Start)
      modifies this`place
      ensures View() == Next(old(View()), Start) && Orderly(View())
    {
      OrderKept(View(), Start);
      place := Polling;
    }

    method ReturnFromPoll(wakeup: bool)
      requires Orderly(View()) && Enabled(View(), PollReturns(wakeup))
      modifies this
      ensures View() == Next(old(View()), PollReturns(wakeup)) && Orderly(View())
    {
      OrderKept(View(), PollReturns(wakeup));
      place, wakeupActive := Handling, wakeup;
    }

    // The wakeup channel is handled; the read returns only from a non-zero counter.
    method ReadWakeup()
      requires Orderly(View()) && Enabled(View(), Step.HandleRead)
      modifies this
      ensures View() == Next(old(View()), Step.HandleRead) && Orderly(View())
    {
      OrderKept(View(), Step.HandleRead);
      assert wakeupCounter > 0;
      wakeupCounter, wakeupActive := 0, false;
    }

    // DoToDoList: first the flag, then the swap under the lock.
    method SetCalling()
      requires Orderly(View()) && Enabled(View(), BeginToDo)
      modifies this
      ensures View() == Next(old(View()), BeginToDo) && Orderly(View())
    {
      OrderKept(View(), BeginToDo);
      callingFunctors, place := true, Swapping;
    }

    method SwapLists()
      requires Orderly(View()) && Enabled(View(), Step.Swap)
      modifies this
      ensures View() == Next(old(View()), Step.Swap) && Orderly(View())
      ensures functors == old(toDoList) && toDoList == []
    {
      OrderKept(View(), Step.Swap);
      functors, toDoList, place := toDoList, functors, Running;
    }

    // One turn of the loop over the swapped functors.
    method RunNextFunctor() returns (f: nat)
      requires Orderly(View()) && Enabled(View(), Step.RunNext)
      modifies this
      ensures View() == Next(old(View()), Step.RunNext) && Orderly(View())
      ensures f == old(enqueued[|executed|]) && [f] + functors == old(functors)
    {
      OrderKept(View(), Step.RunNext);
      f := functors[0];
      functors, executed := functors[1..], executed + [f];
    }

    method ClearCalling()
      requires Orderly(View()) && Enabled(View(), EndToDo)
      modifies this
      ensures View() == Next(old(View()), EndToDo) && Orderly(View())
    {
      OrderKept(View(), EndToDo);
      callingFunctors, place := false, Polling;
    }
  }
}
