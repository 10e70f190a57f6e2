/** The teardown ends: from every reachable state the threads that have something
    to do can bring the server to rest. */
module TeardownQuiet {
  import opened Wrappers
  import opened Teardown
  import opened TeardownTheorems

  // Steps that finish what was begun: no new connection, pointer, poll or write.
  predicate Finishing(step: Step) {
    step.SetConnected? || step.FinishEstablishing? || step.Post? || step.RunMain? || step.RunLoop? || step.Deliver? || step.Drop?
  }

  predicate AllFinishing(run: seq<Step>) {
    forall i | 0 <= i < |run| :: Finishing(run[i])
  }

  /// What is left to do

  function Queued(qs: seq<seq<nat>>): nat {
    if qs == [] then 0 else |qs[0]| + Queued(qs[1..])
  }

  function Polled(bs: seq<set<nat>>): nat {
    if bs == [] then 0 else |bs[0]| + Polled(bs[1..])
  }

  function Establishing(s: State): nat {
    if s.establishing.None? then 0
    else if IsConn(s, s.establishing.value) && s.conns[s.establishing.value].state == Invalid then 2 else 1
  }

  // Each functor or event becomes one pointer less far from being dropped.
  function Left(s: State): nat {
    Establishing(s) + 5 * |s.closing| + 4 * |s.mainQueue| + 2 * Queued(s.loopQueues) + 2 * Polled(s.batches) + |s.holds|
  }

  lemma {:induction false} QueuedUpdate(qs: seq<seq<nat>>, l: nat, q: seq<nat>)
    requires l < |qs|
    ensures Queued(qs[l := q]) + |qs[l]| == Queued(qs) + |q|
    decreases |qs|
  {
    if l == 0 {
      assert qs[0 := q][1..] == qs[1..];
    } else {
      assert qs[l := q][0] == qs[0] && qs[l := q][1..] == qs[1..][l - 1 := q];
      QueuedUpdate(qs[1..], l - 1, q);
    }
  }

  lemma {:induction false} PolledUpdate(bs: seq<set<nat>>, l: nat, b: set<nat>)
    requires l < |bs|
    ensures Polled(bs[l := b]) + |bs[l]| == Polled(bs) + |b|
    decreases |bs|
  {
    if l == 0 {
      assert bs[0 := b][1..] == bs[1..];
    } else {
      assert bs[l := b][0] == bs[0] && bs[l := b][1..] == bs[1..][l - 1 := b];
      PolledUpdate(bs[1..], l - 1, b);
    }
  }

  /// Each such step leaves less to do

  lemma EstablishingEnds(s: State, step: Step)
    requires Inv(s) && Enabled(s, step) && (step.SetConnected? || step.FinishEstablishing?)
    ensures Left(Next(s, step)) < Left(s)
  {
    hide Queued, Polled, Inv;
  }

  lemma PostEnds(s: State, c: nat)
    requires Inv(s) && Enabled(s, Post(c))
    ensures Left(Next(s, Post(c))) < Left(s)
  {
    hide Queued, Polled, Inv;
    assert |s.closing - {c}| == |s.closing| - 1;
  }

  lemma RunMainEnds(s: State)
    requires Inv(s) && Enabled(s, RunMain)
    ensures Left(Next(s, RunMain)) < Left(s)
  {
    RunMainKeeps(s);
    var c := s.mainQueue[0];
    Popped(s.mainQueue, |s.conns|);
    assert ConnOk(s, c);
    var l := s.conns[c].loop;
    QueuedUpdate(s.loopQueues, l, s.loopQueues[l] + [c]);
    hide Queued, Polled, Inv, ConnOk;
  }

  lemma RunLoopEnds(s: State, l: nat)
    requires Inv(s) && Enabled(s, RunLoop(l))
    ensures Left(Next(s, RunLoop(l))) < Left(s)
  {
    Popped(s.loopQueues[l], |s.conns|);
    QueuedUpdate(s.loopQueues, l, s.loopQueues[l][1..]);
    hide Queued, Polled, Inv;
  }

  lemma DeliverEnds(s: State, l: nat, c: nat)
    requires Inv(s) && Enabled(s, Deliver(l, c))
    ensures Left(Next(s, Deliver(l, c))) < Left(s)
  {
    PolledUpdate(s.batches, l, s.batches[l] - {c});
    hide Queued, Polled, Inv;
  }

  lemma DropEnds(s: State, c: nat)
    requires Inv(s) && Enabled(s, Drop(c))
    ensures Left(Next(s, Drop(c))) < Left(s)
  {
    hide Queued, Polled, Inv, Referenced;
    assert |s.holds - multiset{c}| == |s.holds| - 1;
  }

  lemma StepEnds(s: State, step: Step)
    requires Inv(s) && Enabled(s, step) && Finishing(step)
    ensures Left(Next(s, step)) < Left(s)
  {
    hide Inv, Enabled, Next, Left;
    match step {
      case SetConnected => EstablishingEnds(s, step);
      case FinishEstablishing => EstablishingEnds(s, step);
      case Post(c) => PostEnds(s, c);
      case RunMain => RunMainEnds(s);
      case RunLoop(l) => RunLoopEnds(s, l);
      case Deliver(l, c) => DeliverEnds(s, l, c);
      case Drop(c) => DropEnds(s, c);
    }
  }

  /// And until the server is at rest there is one

  lemma SomethingToFinish(s: State) returns (step: Step)
    requires Inv(s) && !Quiet(s)
    ensures Finishing(step) && Enabled(s, step)
  {
    if s.establishing.Some? {
      step := if s.conns[s.establishing.value].state == Invalid then SetConnected else FinishEstablishing;
    } else if s.closing != {} {
      var c :| c in s.closing;
      step := Post(c);
    } else if s.mainQueue != [] {
      step := RunMain;
    } else if s.holds != multiset{} {
      var c :| c in s.holds;
      step := Drop(c);
    } else {
      var l: nat :| l < |s.loopQueues| && s.loopQueues[l] != [];
      if s.batches[l] == {} {
        step := RunLoop(l);
      } else {
        assert SetBelow(s.batches[l], |s.conns|);
        var c :| c in s.batches[l];
        step := Deliver(l, c);
      }
    }
  }

  lemma {:induction false} ComesToRest(s: State) returns (run: seq<Step>)
    requires Inv(s)
    ensures Legal(s, run) && AllFinishing(run) && Quiet(Final(s, run))
    decreases Left(s)
  {
    hide Inv, Enabled, Next, Left, Quiet, Finishing;
    if Quiet(s) {
      run := [];
    } else {
      var step := SomethingToFinish(s);
      StepEnds(s, step);
      StepKeeps(s, step);
      var rest := ComesToRest(Next(s, step));
      run := [step] + rest;
      assert run[1..] == rest;
    }
  }

  // No schedule of such steps is longer than what was left to do.
  lemma {:induction false} FinishingIsBounded(s: State, run: seq<Step>)
    requires Inv(s) && Legal(s, run) && AllFinishing(run)
    ensures |run| <= Left(s)
    decreases |run|
  {
    hide Inv, Enabled, Next, Left, Finishing;
    if run == [] {
    } else {
      StepEnds(s, run[0]);
      StepKeeps(s, run[0]);
      FinishingIsBounded(Next(s, run[0]), run[1..]);
    }
  }

  predicate Closed(s: State, c: nat) {
    IsConn(s, c) && s.conns[c].state == Disconnected
  }

  lemma HandingOnKeepsClosed(s: State, step: Step, c: nat)
    requires Closed(s, c) && (step.Accept? || step.CloseOnMain? || step.RunMain? || step.RunLoop? || step.Close?)
    ensures Closed(Next(s, step), c)
  {
  }

  lemma HoldingKeepsClosed(s: State, step: Step, c: nat)
    requires Closed(s, c) && Enabled(s, step)
    requires !(step.Accept? || step.CloseOnMain? || step.RunMain? || step.RunLoop? || step.Close?)
    ensures Closed(Next(s, step), c)
  {
    hide Referenced, IsOpen;
  }

  lemma StepKeepsClosed(s: State, step: Step, c: nat)
    requires Enabled(s, step) && Closed(s, c)
    ensures Closed(Next(s, step), c)
  {
    hide Enabled, Next, Closed;
    if step.Accept? || step.CloseOnMain? || step.RunMain? || step.RunLoop? || step.Close? {
      HandingOnKeepsClosed(s, step, c);
    } else {
      HoldingKeepsClosed(s, step, c);
    }
  }

  lemma {:induction false} RunKeepsClosed(s: State, run: seq<Step>, c: nat)
    requires Legal(s, run) && Closed(s, c)
    ensures Closed(Final(s, run), c)
    decreases |run|
  {
    hide Enabled, Next, Closed;
    if run == [] {
    } else {
      StepKeepsClosed(s, run[0], c);
      RunKeepsClosed(Next(s, run[0]), run[1..], c);
    }
  }

  // However a run went, handlers, functors and pointers that only finish what
  // was begun destroy every connection that was closed.
  lemma TeardownEnds(s: State, loops: nat, run: seq<Step>) returns (more: seq<Step>)
    requires Reached(s, loops, run)
    ensures Legal(s, more) && AllFinishing(more) && Quiet(Final(s, more))
    ensures forall c: nat | Closed(s, c) :: IsConn(Final(s, more), c) && Final(s, more).conns[c].destroyed
  {
    ReachedInv(s, loops, run);
    more := ComesToRest(s);
    RunsJoin(Initial(loops), run, more);
    NothingLeaks(Final(s, more), loops, run + more);
    forall c: nat | Closed(s, c) ensures Closed(Final(s, more), c) { RunKeepsClosed(s, more, c); }
  }

  lemma {:induction false} RunsJoin(s: State, a: seq<Step>, b: seq<Step>)
    requires Legal(s, a) && Legal(Final(s, a), b)
    ensures Legal(s, a + b) && Final(s, a + b) == Final(Final(s, a), b)
    decreases |a|
  {
    hide Enabled, Next;
    if a == [] {
      assert a + b == b;
    } else {
      RunsJoin(Next(s, a[0]), a[1..], b);
      assert (a + b)[1..] == a[1..] + b;
    }
  }
}
