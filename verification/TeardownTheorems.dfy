/** What holds in every run of the connection protocol. */
module TeardownTheorems {
  import opened Wrappers
  import opened Teardown

  lemma StepKeeps(s: State, step: Step)
    requires Inv(s) && Enabled(s, step)
    ensures Inv(Next(s, step))
  {
    hide Inv, Enabled, Next;
    match step {
      case Accept(fd) => AcceptKeeps(s, fd);
      case SetConnected => SetConnectedKeeps(s);
      case FinishEstablishing => FinishEstablishingKeeps(s);
      case Copy(c) => CopyKeeps(s, c);
      case Drop(c) => DropKeeps(s, c);
      case Close(c) => CloseKeeps(s, c);
      case Post(c) => PostKeeps(s, c);
      case CloseOnMain(c) => CloseOnMainKeeps(s, c);
      case RunMain => RunMainKeeps(s);
      case RunLoop(l) => RunLoopKeeps(s, l);
      case Poll(l, ready) => PollKeeps(s, l, ready);
      case Deliver(l, c) => DeliverKeeps(s, l, c);
      case EnableWrite(c) => EnableWriteKeeps(s, c);
      case OpenOther(fd) => OpenOtherKeeps(s, fd);
      case CloseOther(fd) => CloseOtherKeeps(s, fd);
    }
  }

  /// Runs.

  predicate Legal(s: State, run: seq<Step>)
    decreases |run|
  {
    run == [] || (Enabled(s, run[0]) && Legal(Next(s, run[0]), run[1..]))
  }

  function Final(s: State, run: seq<Step>): State
    decreases |run|
  {
    if run == [] then s else Final(Next(s, run[0]), run[1..])
  }

  lemma {:induction false} RunKeeps(s: State, run: seq<Step>)
    requires Inv(s) && Legal(s, run)
    ensures Inv(Final(s, run))
    decreases |run|
  {
    hide Inv, Enabled, Next;
    if run == [] {
    } else {
      StepKeeps(s, run[0]);
      RunKeeps(Next(s, run[0]), run[1..]);
    }
  }

  // s can be reached by some interleaving from a server with no connections.
  ghost predicate Reached(s: State, loops: nat, run: seq<Step>) {
    loops > 0 && Legal(Initial(loops), run) && s == Final(Initial(loops), run)
  }

  lemma ReachedInv(s: State, loops: nat, run: seq<Step>)
    requires Reached(s, loops, run)
    ensures Inv(s)
  {
    InitialInv(loops);
    RunKeeps(Initial(loops), run);
  }

  /// Numbers and loops

  // The descriptors accepted in a run, in order.
  function Descriptors(run: seq<Step>): seq<int> {
    if run == [] then []
    else match run[0]
      case Accept(fd) => [fd] + Descriptors(run[1..])
      case _ => Descriptors(run[1..])
  }

  function Fds(s: State): seq<int> {
    seq(|s.conns|, c requires 0 <= c < |s.conns| => s.conns[c].fd)
  }

  // The ids go round from 1 to 999, the connections go round the loops.
  predicate Numbered(s: State) {
    && s.nextId == |s.conns| % 999 + 1 && s.loopQueues != [] && s.nextLoop == |s.conns| % |s.loopQueues|
    && forall c | 0 <= c < |s.conns| ::
         s.conns[c].id == c % 999 + 1 && s.conns[c].loop == c % |s.loopQueues|
  }

  lemma GoesRound(n: nat, m: nat)
    requires m > 0
    ensures (n + 1) % m == if n % m + 1 == m then 0 else n % m + 1
  {
    assert n == n / m * m + n % m;
    if n % m + 1 == m {
      Multiple(n / m + 1, m, 0);
    } else {
      Multiple(n / m, m, n % m + 1);
    }
  }

  lemma Multiple(k: nat, m: nat, r: nat)
    requires r < m
    ensures (k * m + r) % m == r
  {
    var q := (k * m + r) / m;
    if q < k {
      Smaller(q + 1, k, m);
    } else if q > k {
      Smaller(k + 1, q, m);
    }
  }

  lemma Smaller(a: nat, b: nat, m: nat)
    requires a <= b
    ensures a * m <= b * m
  {
  }

  predicate SameNumbers(s: State, t: State) {
    && t.nextId == s.nextId && t.nextLoop == s.nextLoop && |t.loopQueues| == |s.loopQueues| && |t.conns| == |s.conns|
    && forall c | 0 <= c < |s.conns| ::
         t.conns[c].id == s.conns[c].id && t.conns[c].loop == s.conns[c].loop && t.conns[c].fd == s.conns[c].fd
  }

  lemma UpdateKeepsNumbers(s: State, c: nat, k: Conn)
    requires IsConn(s, c) && k.id == s.conns[c].id && k.loop == s.conns[c].loop && k.fd == s.conns[c].fd
    ensures SameNumbers(s, Update(s, c, k))
  {
  }

  lemma ReleaseKeepsNumbers(s: State, c: nat)
    requires IsConn(s, c)
    ensures SameNumbers(s, Release(s, c))
  {
    hide Referenced;
  }

  lemma CloseKeepsNumbers(s: State, c: nat)
    requires IsConn(s, c)
    ensures SameNumbers(s, HandleCloseInLoop(s, c))
  {
  }

  lemma OthersKeepNumbers(s: State, step: Step)
    requires !step.Accept?
    ensures SameNumbers(s, Next(s, step))
  {
    hide Update, Release, HandleCloseInLoop;
    match step {
      case FinishEstablishing =>
        if s.establishing.Some? && IsConn(s, s.establishing.value) {
          var c := s.establishing.value;
          var t := Update(s, c, s.conns[c].(registered := true));
          UpdateKeepsNumbers(s, c, s.conns[c].(registered := true));
          ReleaseKeepsNumbers(t.(establishing := None), c);
        }
      case SetConnected =>
        if s.establishing.Some? && IsConn(s, s.establishing.value) {
          var c := s.establishing.value;
          UpdateKeepsNumbers(s, c, s.conns[c].(state := Connected));
        }
      case Drop(c) => if IsConn(s, c) { ReleaseKeepsNumbers(s.(holds := s.holds - multiset{c}), c); }
      case Close(c) => if IsConn(s, c) { UpdateKeepsNumbers(s, c, s.conns[c].(state := Disconnected)); }
      case CloseOnMain(c) =>
        if IsConn(s, c) {
          UpdateKeepsNumbers(s, c, s.conns[c].(state := Disconnected));
          CloseKeepsNumbers(Update(s, c, s.conns[c].(state := Disconnected)), c);
        }
      case RunMain =>
        if s.mainQueue != [] && IsConn(s, s.mainQueue[0]) {
          var c := s.mainQueue[0];
          CloseKeepsNumbers(s.(mainQueue := s.mainQueue[1..], holds := s.holds + multiset{c}), c);
        }
      case RunLoop(l) =>
        if l < |s.loopQueues| && s.loopQueues[l] != [] && IsConn(s, s.loopQueues[l][0]) {
          var c := s.loopQueues[l][0];
          var t := s.(loopQueues := s.loopQueues[l := s.loopQueues[l][1..]], holds := s.holds + multiset{c});
          UpdateKeepsNumbers(t, c, s.conns[c].(registered := false, detached := true));
        }
      case EnableWrite(c) => if IsConn(s, c) { UpdateKeepsNumbers(s, c, s.conns[c].(registered := true)); }
      case _ =>
    }
  }

  lemma StepNumbers(s: State, step: Step)
    requires Numbered(s)
    ensures Numbered(Next(s, step)) && |Next(s, step).loopQueues| == |s.loopQueues|
    ensures Fds(Next(s, step)) == Fds(s) + if step.Accept? then [step.fd] else []
  {
    if step.Accept? {
      GoesRound(|s.conns|, 999);
      GoesRound(|s.conns|, |s.loopQueues|);
    } else {
      OthersKeepNumbers(s, step);
      hide Next;
    }
  }

  lemma {:induction false} RunNumbers(s: State, run: seq<Step>)
    requires Numbered(s)
    ensures Numbered(Final(s, run)) && |Final(s, run).loopQueues| == |s.loopQueues|
    ensures Fds(Final(s, run)) == Fds(s) + Descriptors(run)
    decreases |run|
  {
    hide Numbered, Next, Fds;
    if run == [] {
    } else {
      var t, rest := Next(s, run[0]), Descriptors(run[1..]);
      StepNumbers(s, run[0]);
      RunNumbers(t, run[1..]);
      assert Final(s, run) == Final(t, run[1..]);
      assert Fds(s) + [] + rest == Fds(s) + rest;
    }
  }

  // Connection c has the c-th descriptor accepted, the id c % 999 + 1 and the
  // loop c % loops.
  lemma NumberedInTurn(s: State, loops: nat, run: seq<Step>)
    requires Reached(s, loops, run)
    ensures |s.conns| == |Descriptors(run)| && forall c | 0 <= c < |s.conns| ::
      s.conns[c].fd == Descriptors(run)[c] && s.conns[c].id == c % 999 + 1 && s.conns[c].loop == c % loops
  {
    RunNumbers(Initial(loops), run);
    hide Legal, Final;
    assert [] + Descriptors(run) == Descriptors(run);
    assert forall c | 0 <= c < |s.conns| :: Fds(s)[c] == s.conns[c].fd;
  }

  // A new connection never overwrites a live entry, whatever descriptor the kernel reuses.
  lemma NeverOverwrites(s: State, loops: nat, run: seq<Step>, fd: int)
    requires Reached(s, loops, run) && Enabled(s, Accept(fd))
    ensures fd !in s.table
  {
    ReachedInv(s, loops, run);
    FreshDescriptor(s, fd);
  }

  // Once nothing is being established, whoever has a connection at hand can
  // close it, on any thread, write to it and keep it; any free descriptor can
  // come next.
  lemma HolderCanClose(s: State, loops: nat, run: seq<Step>, c: nat, fd: int)
    requires Reached(s, loops, run) && s.establishing == None
    ensures Held(s, c) ==>
      Enabled(s, Close(c)) && Enabled(s, CloseOnMain(c)) && Enabled(s, EnableWrite(c)) && Enabled(s, Copy(c))
    ensures fd >= 0 && !IsOpen(s, fd) ==> Enabled(s, Accept(fd))
  {
    ReachedInv(s, loops, run);
    if Held(s, c) { assert ConnOk(s, c); }
  }

  // find in HandleCloseInLoop finds the very connection being closed.
  lemma EraseFindsIt(s: State, loops: nat, run: seq<Step>)
    requires Reached(s, loops, run)
    ensures !s.aborted
    ensures forall c | c in s.mainQueue :: IsConn(s, c) && InTable(s, c)
    ensures forall c: nat | IsConn(s, c) && s.conns[c].state != Disconnected :: InTable(s, c)
  {
    ReachedInv(s, loops, run);
    forall c: nat | IsConn(s, c) && (c in s.mainQueue || s.conns[c].state != Disconnected) ensures InTable(s, c) {
      assert ConnOk(s, c);
    }
  }

  // Each connection is torn down at most once, and is in the table until then.
  lemma TornOnce(s: State, loops: nat, run: seq<Step>)
    requires Reached(s, loops, run)
    ensures NoDup(s.torn) && forall c: nat | IsConn(s, c) :: c in s.torn <==> !InTable(s, c)
    ensures forall c | c in s.torn :: IsConn(s, c) && s.conns[c].state == Disconnected
  {
    ReachedInv(s, loops, run);
    forall c: nat | IsConn(s, c)
      ensures (c in s.torn <==> !InTable(s, c)) && (c in s.torn ==> s.conns[c].state == Disconnected)
    {
      assert ConnOk(s, c);
    }
  }

  // ConnectionDestructor runs at most once for each connection, on its own loop.
  lemma DestructorOnce(s: State, loops: nat, run: seq<Step>, l: nat)
    requires Reached(s, loops, run) && Enabled(s, RunLoop(l))
    ensures var c := s.loopQueues[l][0];
      IsConn(s, c) && !s.conns[c].detached && s.conns[c].loop == l && !s.conns[c].destroyed
  {
    ReachedInv(s, loops, run);
    var c := s.loopQueues[l][0];
    Popped(s.loopQueues[l], |s.conns|);
    assert ConnOk(s, c);
  }

  // The descriptor is closed after the connection was torn down, and its channel
  // is out of epoll by then unless it was registered again too late.
  lemma ClosedAfterEpoll(s: State, loops: nat, run: seq<Step>, c: nat)
    requires Reached(s, loops, run) && IsConn(s, c) && s.conns[c].destroyed
    ensures s.conns[c].detached && c in s.torn && !Referenced(s, c)
    ensures s.conns[c].registered <==> c in s.late
  {
    ReachedInv(s, loops, run);
    assert ConnOk(s, c);
  }

  // A polled event finds its connection alive, unless it was registered again too late.
  lemma EventsFindTheirConnection(s: State, loops: nat, run: seq<Step>, l: nat, c: nat)
    requires Reached(s, loops, run) && l < |s.batches| && c in s.batches[l] && c !in s.late
    ensures IsConn(s, c) && !s.conns[c].destroyed && s.conns[c].registered && s.conns[c].loop == l
  {
    ReachedInv(s, loops, run);
    assert SetBelow(s.batches[l], |s.conns|);
    assert ConnOk(s, c);
  }

  // Nothing is left to do and nobody keeps a pointer.
  predicate Quiet(s: State) {
    && s.establishing == None && s.closing == {} && s.mainQueue == [] && s.holds == multiset{}
    && forall l | 0 <= l < |s.loopQueues| :: s.loopQueues[l] == []
  }

  // Then exactly the closed connections are gone, with their descriptors.
  lemma NothingLeaks(s: State, loops: nat, run: seq<Step>)
    requires Reached(s, loops, run) && Quiet(s)
    ensures forall c: nat | IsConn(s, c) :: s.conns[c].destroyed <==> s.conns[c].state == Disconnected
    ensures forall fd :: IsOpen(s, fd) <==> fd in s.table || fd in s.others
  {
    ReachedInv(s, loops, run);
    forall c: nat | IsConn(s, c)
      ensures s.conns[c].destroyed <==> s.conns[c].state == Disconnected
      ensures !s.conns[c].destroyed <==> InTable(s, c)
    {
      assert ConnOk(s, c);
    }
    forall fd | fd in s.table ensures IsOpen(s, fd) { TableEntryIsOpen(s, fd); }
  }

  /// Sending on a connection whose channel was already deleted.

  // Write interest is only ever registered before ConnectionDestructor has run.
  predicate WritesInTime(s: State, run: seq<Step>)
    decreases |run|
  {
    run == [] ||
    (&& (run[0].EnableWrite? && IsConn(s, run[0].c) ==> !s.conns[run[0].c].detached)
     && WritesInTime(Next(s, run[0]), run[1..]))
  }

  lemma LateOnlyGrows(s: State, step: Step)
    ensures s.late <= Next(s, step).late
    ensures Next(s, step).late == s.late <==>
      !(step.EnableWrite? && IsConn(s, step.c) && s.conns[step.c].detached && step.c !in s.late)
  {
  }

  lemma {:induction false} LateExactly(s: State, run: seq<Step>)
    ensures s.late <= Final(s, run).late
    ensures s.late == {} ==> (Final(s, run).late == {} <==> WritesInTime(s, run))
    decreases |run|
  {
    hide Next;
    if run == [] {
    } else {
      LateOnlyGrows(s, run[0]);
      LateExactly(Next(s, run[0]), run[1..]);
    }
  }

  // With every write in time the channel always leaves epoll before its
  // descriptor is closed, and no event reaches a destroyed connection.
  lemma SafeWhenWritesInTime(s: State, loops: nat, run: seq<Step>)
    requires Reached(s, loops, run) && WritesInTime(Initial(loops), run)
    ensures s.dangling == {} && forall c: nat | IsConn(s, c) && s.conns[c].destroyed :: !s.conns[c].registered
  {
    ReachedInv(s, loops, run);
    LateExactly(Initial(loops), run);
    forall c: nat | IsConn(s, c) && s.conns[c].destroyed ensures !s.conns[c].registered { assert ConnOk(s, c); }
  }

  predicate Goes(s: State, step: Step, t: State) {
    Enabled(s, step) && Next(s, step) == t
  }

  lemma {:induction false} Appended(s: State, run: seq<Step>, step: Step)
    requires Legal(s, run) && Enabled(Final(s, run), step)
    ensures Legal(s, run + [step]) && Final(s, run + [step]) == Next(Final(s, run), step)
    decreases |run|
  {
    hide Enabled, Next;
    if run == [] {
      assert [step][1..] == [];
    } else {
      Appended(Next(s, run[0]), run[1..], step);
      assert (run + [step])[1..] == run[1..] + [step];
    }
  }

  lemma Then(s: State, run: seq<Step>, step: Step, t: State) returns (longer: seq<Step>)
    requires Legal(s, run) && Goes(Final(s, run), step, t)
    ensures Legal(s, longer) && Final(s, longer) == t
  {
    longer := run + [step];
    Appended(s, run, step);
  }

  // A server with one loop and connection 0 on descriptor 5, while its closing is under way.
  function Alone(state: ConnState, registered: bool, detached: bool, inTable: bool, e: Option<nat>, closing: set<nat>,
                 main: seq<nat>, loop: seq<nat>, holds: multiset<nat>): State {
    State([Conn(5, 1, 0, state, registered, detached, false)], if inTable then map[5 := 0] else map[], 2, 0, e, closing,
          main, [loop], [{}], holds, {}, if inTable then [] else [0], {}, {}, false)
  }

  // Then it is registered again.
  function Late(batch: set<nat>, holds: multiset<nat>, destroyed: bool, dangling: set<nat>): State {
    State([Conn(5, 1, 0, Disconnected, true, true, destroyed)], map[], 2, 0, None, {},
          [], [[]], [batch], holds, {}, [0], {0}, dangling, false)
  }

  const ACCEPTED := Alone(Invalid, true, false, true, Some(0), {}, [], [], multiset{})
  const CONNECTED := Alone(Connected, true, false, true, Some(0), {}, [], [], multiset{})
  const COPIED := Alone(Connected, true, false, true, Some(0), {}, [], [], multiset{0})
  const ESTABLISHED := Alone(Connected, true, false, true, None, {}, [], [], multiset{0})
  const CLOSED := Alone(Disconnected, true, false, true, None, {0}, [], [], multiset{0})
  const POSTED := Alone(Disconnected, true, false, true, None, {}, [0], [], multiset{0})
  const ERASED := Alone(Disconnected, true, false, false, None, {}, [], [0], multiset{0, 0})
  const DETACHED := Alone(Disconnected, false, true, false, None, {}, [], [], multiset{0, 0, 0})
  const REGISTERED_AGAIN := Late({}, multiset{0, 0, 0}, false, {})
  const POLLED := Late({0}, multiset{0, 0, 0}, false, {})
  const DROPPED_ONCE := Late({0}, multiset{0, 0}, false, {})
  const DROPPED_TWICE := Late({0}, multiset{0}, false, {})
  const DESTROYED := Late({0}, multiset{}, true, {})
  const DANGLING := Late({}, multiset{}, true, {0})

  lemma EstablishingGoes()
    ensures Goes(Initial(1), Accept(5), ACCEPTED)
    ensures Goes(ACCEPTED, SetConnected, CONNECTED)
    ensures Goes(CONNECTED, Copy(0), COPIED)
    ensures Goes(COPIED, FinishEstablishing, ESTABLISHED)
  {
  }

  lemma ClosingGoes()
    ensures Goes(ESTABLISHED, Close(0), CLOSED)
    ensures Goes(CLOSED, Post(0), POSTED)
  {
  }

  lemma TearingGoes()
    ensures Goes(POSTED, RunMain, ERASED)
  {
    assert map[5 := 0 as nat] - {5} == map[];
    var one: seq<nat> := [0];
    assert one[1..] == [] && [] + one == one && [[]][0 := one] == [one];
  }

  lemma DestructorGoes()
    ensures Goes(ERASED, RunLoop(0), DETACHED)
  {
    var one: seq<nat> := [0];
    assert one[1..] == [] && [one][0 := []] == [[]];
  }

  lemma LateGoes()
    ensures Goes(DETACHED, EnableWrite(0), REGISTERED_AGAIN)
    ensures Goes(REGISTERED_AGAIN, Poll(0, {0}), POLLED)
    ensures Goes(POLLED, Drop(0), DROPPED_ONCE)
  {
  }

  lemma ForgottenGoes()
    ensures Goes(DROPPED_ONCE, Drop(0), DROPPED_TWICE)
    ensures Goes(DROPPED_TWICE, Drop(0), DESTROYED)
  {
  }

  lemma DanglingGoes()
    ensures Goes(DESTROYED, Deliver(0, 0), DANGLING)
  {
    var batch: set<nat> := {0};
    assert batch - {0} == {} && [batch][0 := {}] == [{}] && {} + batch == batch;
  }

  // The connection is closed and torn down while user code keeps a pointer,
  // written to, polled, and forgotten before its event is handled: one late
  // write is enough to hand an event to a destroyed connection.
  lemma LateWriteDangles() returns (run: seq<Step>)
    ensures Reached(Final(Initial(1), run), 1, run) && Final(Initial(1), run).dangling == {0}
  {
    EstablishingGoes();
    ClosingGoes();
    TearingGoes();
    DestructorGoes();
    LateGoes();
    ForgottenGoes();
    DanglingGoes();
    var s := Initial(1);
    run := [];
    assert Legal(s, run) && Final(s, run) == s;
    hide Goes, Legal, Final, Initial, Alone;
    run := Then(s, run, Accept(5), ACCEPTED);
    run := Then(s, run, SetConnected, CONNECTED);
    run := Then(s, run, Copy(0), COPIED);
    run := Then(s, run, FinishEstablishing, ESTABLISHED);
    run := Then(s, run, Close(0), CLOSED);
    run := Then(s, run, Post(0), POSTED);
    run := Then(s, run, RunMain, ERASED);
    run := Then(s, run, RunLoop(0), DETACHED);
    run := Then(s, run, EnableWrite(0), REGISTERED_AGAIN);
    run := Then(s, run, Poll(0, {0}), POLLED);
    run := Then(s, run, Drop(0), DROPPED_ONCE);
    run := Then(s, run, Drop(0), DROPPED_TWICE);
    run := Then(s, run, Drop(0), DESTROYED);
    run := Then(s, run, Deliver(0, 0), DANGLING);
  }
}
