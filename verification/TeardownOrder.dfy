/** The order in which connections are torn down: reference counts, descriptors,
    batches and channels aside, the protocol is a plain pair of queues. */
module TeardownOrder {
  import opened Wrappers
  import opened Teardown
  import opened TeardownTheorems

  // The main reactor's list, the connections closed so far, those torn down in
  // order, and each loop's list.
  datatype Plan = Plan(main: seq<nat>, closed: set<nat>, torn: seq<nat>, loops: seq<seq<nat>>)

  // Torn down, a connection waits for its destructor on the loop it was given in turn.
  function Tear(p: Plan, c: nat): Plan {
    if p.loops == [] then p
    else
      var l := c % |p.loops|;
      p.(torn := p.torn + [c], loops := p.loops[l := p.loops[l] + [c]])
  }

  function PlanStep(p: Plan, step: Step): Plan {
    match step
    case Close(c) => p.(closed := p.closed + {c})
    case Post(c) => p.(main := p.main + [c])
    case CloseOnMain(c) => if c in p.closed then p else Tear(p.(closed := p.closed + {c}), c)
    case RunMain => if p.main == [] then p else Tear(p.(main := p.main[1..]), p.main[0])
    case RunLoop(l) =>
      if l < |p.loops| && p.loops[l] != [] then p.(loops := p.loops[l := p.loops[l][1..]]) else p
    case _ => p
  }

  function PlanRun(p: Plan, run: seq<Step>): Plan
    decreases |run|
  {
    if run == [] then p else PlanRun(PlanStep(p, run[0]), run[1..])
  }

  function Closed(s: State): set<nat> {
    set c: nat | c < |s.conns| && s.conns[c].state == Disconnected
  }

  function PlanOf(s: State): Plan {
    Plan(s.mainQueue, Closed(s), s.torn, s.loopQueues)
  }

  lemma UpdateCloses(s: State, c: nat, k: Conn)
    requires IsConn(s, c)
    ensures Closed(Update(s, c, k)) == if k.state == Disconnected then Closed(s) + {c} else Closed(s) - {c}
  {
  }

  lemma ReleaseCloses(s: State, c: nat)
    requires IsConn(s, c)
    ensures PlanOf(Release(s, c)) == PlanOf(s)
  {
    hide Referenced;
  }

  lemma CloseInLoopTears(s: State, c: nat)
    requires IsConn(s, c) && InTable(s, c) && s.loopQueues != [] && s.conns[c].loop == c % |s.loopQueues|
    ensures PlanOf(HandleCloseInLoop(s, c)) == Tear(PlanOf(s), c)
  {
  }

  lemma SameClosed(s: State, c: nat, k: Conn)
    requires IsConn(s, c) && (k.state == Disconnected <==> s.conns[c].state == Disconnected)
    ensures PlanOf(Update(s, c, k)) == PlanOf(s)
  {
    UpdateCloses(s, c, k);
  }

  lemma ClosePlanned(s: State, c: nat)
    requires Enabled(s, Close(c))
    ensures PlanOf(Next(s, Close(c))) == PlanStep(PlanOf(s), Close(c))
  {
    UpdateCloses(s, c, s.conns[c].(state := Disconnected));
    hide Closed, Update;
    assert s.conns[c].state == Disconnected ==> Closed(s) + {c} == Closed(s) by { ClosedIs(s, c); }
  }

  lemma ClosedIs(s: State, c: nat)
    requires IsConn(s, c)
    ensures c in Closed(s) <==> s.conns[c].state == Disconnected
  {
  }

  lemma OnMainPlanned(s: State, c: nat)
    requires Inv(s) && Numbered(s) && Enabled(s, CloseOnMain(c))
    ensures PlanOf(Next(s, CloseOnMain(c))) == PlanStep(PlanOf(s), CloseOnMain(c))
  {
    ClosedIs(s, c);
    assert ConnOk(s, c);
    var k := s.conns[c].(state := Disconnected);
    UpdateCloses(s, c, k);
    if s.conns[c].state != Disconnected {
      assert Stage(s, c) == 0;
      CloseInLoopTears(Update(s, c, k), c);
    }
    hide ConnOk, Inv, HandleCloseInLoop, Closed, Stage;
  }

  lemma RunMainPlanned(s: State)
    requires Inv(s) && Numbered(s) && Enabled(s, RunMain)
    ensures PlanOf(Next(s, RunMain)) == PlanStep(PlanOf(s), RunMain)
  {
    var c := s.mainQueue[0];
    assert c in s.mainQueue;
    assert ConnOk(s, c);
    hide Inv, ConnOk, HandleCloseInLoop, Stage;
    CloseInLoopTears(s.(mainQueue := s.mainQueue[1..], holds := s.holds + multiset{c}), c);
  }

  lemma RunLoopPlanned(s: State, l: nat)
    requires Inv(s) && Enabled(s, RunLoop(l))
    ensures PlanOf(Next(s, RunLoop(l))) == PlanStep(PlanOf(s), RunLoop(l))
  {
    var c := s.loopQueues[l][0];
    assert c in s.loopQueues[l];
    hide ConnOk;
    var t := s.(loopQueues := s.loopQueues[l := s.loopQueues[l][1..]], holds := s.holds + multiset{c});
    SameClosed(t, c, s.conns[c].(registered := false, detached := true));
    hide Inv, Closed;
  }

  lemma EstablishingPlanned(s: State, step: Step)
    requires Enabled(s, step) && (step.Accept? || step.SetConnected? || step.FinishEstablishing?)
    ensures PlanOf(Next(s, step)) == PlanOf(s)
  {
    match step {
      case Accept(fd) =>
      case SetConnected =>
        var c := s.establishing.value;
        SameClosed(s, c, s.conns[c].(state := Connected));
      case FinishEstablishing =>
        var c := s.establishing.value;
        SameClosed(s, c, s.conns[c].(registered := true));
        ReleaseCloses(Update(s, c, s.conns[c].(registered := true)).(establishing := None), c);
    }
  }

  lemma StepPlanned(s: State, step: Step)
    requires Inv(s) && Numbered(s) && Enabled(s, step)
    ensures PlanOf(Next(s, step)) == PlanStep(PlanOf(s), step)
  {
    hide Inv, Numbered, Tear, Update, Release, HandleCloseInLoop, ConnectionDestructor, HandleNewConnection, Closed, Referenced;
    match step {
      case Close(c) => ClosePlanned(s, c);
      case CloseOnMain(c) => OnMainPlanned(s, c);
      case RunMain => RunMainPlanned(s);
      case RunLoop(l) => RunLoopPlanned(s, l);
      case Accept(fd) => EstablishingPlanned(s, step);
      case SetConnected => EstablishingPlanned(s, step);
      case FinishEstablishing => EstablishingPlanned(s, step);
      case Drop(c) =>
        var t := s.(holds := s.holds - multiset{c});
        SameConns(s, t);
        ReleaseCloses(t, c);
      case EnableWrite(c) =>
        SameClosed(s, c, s.conns[c].(registered := true));
        SameConns(Update(s, c, s.conns[c].(registered := true)), Next(s, step));
      case _ => SameConns(s, Next(s, step));
    }
  }

  lemma SameConns(s: State, t: State)
    requires s.conns == t.conns
    ensures Closed(s) == Closed(t)
  {
  }

  lemma {:induction false} RunPlanned(s: State, run: seq<Step>)
    requires Inv(s) && Numbered(s) && Legal(s, run)
    ensures PlanOf(Final(s, run)) == PlanRun(PlanOf(s), run)
    decreases |run|
  {
    hide Inv, Numbered, Enabled, Next, PlanStep, PlanOf;
    if run == [] {
    } else {
      StepKeeps(s, run[0]);
      StepNumbers(s, run[0]);
      StepPlanned(s, run[0]);
      RunPlanned(Next(s, run[0]), run[1..]);
    }
  }

  // Over every run the lists and the order of tearing down are those of the two
  // plain queues: first closed and handed over, first torn down and destructed.
  lemma TornInOrder(s: State, loops: nat, run: seq<Step>)
    requires Reached(s, loops, run)
    ensures PlanOf(s) == PlanRun(Plan([], {}, [], seq(loops, _ => [])), run)
  {
    InitialInv(loops);
    RunPlanned(Initial(loops), run);
    assert PlanOf(Initial(loops)) == Plan([], {}, [], seq(loops, _ => [])) by { assert Closed(Initial(loops)) == {}; }
    hide Legal, Final, PlanRun, PlanOf;
  }
}
