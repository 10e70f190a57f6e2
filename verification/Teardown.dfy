/** The life of a connection across threads: src/NetWork/TcpServer.cpp and
    src/NetWork/TcpConnection.cpp on the loops of src/Event/EventLoop.cpp.
    Each step is what one thread does between two points at which another may
    interleave.  Shared pointers are indices into the table of all connections
    ever made, and reference counts are the places such an index is kept. */
module Teardown {
  import opened Wrappers

  datatype ConnState = Invalid | Connected | Disconnected

  // registered is the in_epoll_ flag of the channel; detached says that
  // ConnectionDestructor has run, destroyed that the destructor closed the fd.
  datatype Conn = Conn(fd: int, id: int, loop: nat, state: ConnState, registered: bool, detached: bool, destroyed: bool)

  datatype State = State(
    conns: seq<Conn>,
    table: map<int, nat>,           // connectionsMap_
    nextId: int,
    nextLoop: nat,
    establishing: Option<nat>,      // what the main thread is inside ConnectionEstablished with
    closing: set<nat>,              // past the test in HandleClose, not yet posted
    mainQueue: seq<nat>,            // HandleCloseInLoop functors of the main reactor
    loopQueues: seq<seq<nat>>,      // ConnectionDestructor functors of each sub-reactor
    batches: seq<set<nat>>,         // what each sub-reactor polled and has not handled yet
    holds: multiset<nat>,           // handler guards, functors already run, pointers of user code
    others: set<int>,               // descriptors open for other purposes
    torn: seq<nat>,                 // history: the connections HandleCloseInLoop was called for
    late: set<nat>,                 // history: registered again after ConnectionDestructor
    dangling: set<nat>,             // history: handled after destruction
    aborted: bool)                  // history: the assert in HandleCloseInLoop failed

  datatype Step =
    | Accept(fd: int) | SetConnected | FinishEstablishing
    | Copy(c: nat) | Drop(c: nat)
    | Close(c: nat) | Post(c: nat) | CloseOnMain(c: nat)
    | RunMain | RunLoop(l: nat)
    | Poll(l: nat, ready: set<nat>) | Deliver(l: nat, c: nat)
    | EnableWrite(c: nat)
    | OpenOther(fd: int) | CloseOther(fd: int)

  function Initial(loops: nat): State {
    State([], map[], 1, 0, None, {}, [], seq(loops, _ => []), seq(loops, _ => {}), multiset{}, {}, [], {}, {}, false)
  }

  predicate IsConn(s: State, c: nat) { c < |s.conns| }

  predicate InTable(s: State, c: nat)
    requires IsConn(s, c)
  {
    s.conns[c].fd in s.table && s.table[s.conns[c].fd] == c
  }

  predicate InLoopQueue(s: State, c: nat)
    requires IsConn(s, c)
  {
    s.conns[c].loop < |s.loopQueues| && c in s.loopQueues[s.conns[c].loop]
  }

  // Some shared pointer to the connection exists.
  predicate Referenced(s: State, c: nat)
    requires IsConn(s, c)
  {
    InTable(s, c) || c in s.closing || c in s.mainQueue || InLoopQueue(s, c) || c in s.holds || s.establishing == Some(c)
  }

  // Some running code has the connection at hand.
  predicate Held(s: State, c: nat) {
    IsConn(s, c) && (c in s.holds || s.establishing == Some(c))
  }

  predicate IsOpen(s: State, fd: int) {
    fd in s.others || exists c | 0 <= c < |s.conns| :: s.conns[c].fd == fd && !s.conns[c].destroyed
  }

  /// What each step needs, besides a thread that is there to take it.

  predicate Enabled(s: State, step: Step) {
    match step
    // The kernel hands out descriptors that are not open.
    case Accept(fd) => fd >= 0 && !IsOpen(s, fd) && s.establishing == None
    case SetConnected =>
      s.establishing.Some? && IsConn(s, s.establishing.value) && s.conns[s.establishing.value].state == Invalid
    case FinishEstablishing =>
      s.establishing.Some? && IsConn(s, s.establishing.value) && s.conns[s.establishing.value].state != Invalid
    case Copy(c) => Held(s, c)
    case Drop(c) => IsConn(s, c) && c in s.holds
    // Nobody closes a connection before it is established.
    case Close(c) => Held(s, c) && s.conns[c].state != Invalid
    case Post(c) => c in s.closing
    case CloseOnMain(c) => Held(s, c) && s.conns[c].state != Invalid && s.establishing == None
    case RunMain => s.mainQueue != [] && s.establishing == None
    // A loop runs its functors when it has handled what it polled.
    case RunLoop(l) => l < |s.loopQueues| == |s.batches| && s.loopQueues[l] != [] && s.batches[l] == {}
    case Poll(l, ready) =>
      l < |s.batches| && s.batches[l] == {}
      && forall c | c in ready :: IsConn(s, c) && s.conns[c].loop == l && s.conns[c].registered && !s.conns[c].destroyed
    case Deliver(l, c) => l < |s.batches| && c in s.batches[l] && IsConn(s, c)
    case EnableWrite(c) => Held(s, c)
    case OpenOther(fd) => !IsOpen(s, fd)
    case CloseOther(fd) => fd in s.others
  }

  /// The steps.

  function Update(s: State, c: nat, k: Conn): State
    requires IsConn(s, c)
  {
    s.(conns := s.conns[c := k])
  }

  // The last shared pointer destroys what it points to.
  function Release(s: State, c: nat): State
    requires IsConn(s, c)
  {
    if Referenced(s, c) then s else Update(s, c, s.conns[c].(destroyed := true))
  }

  function HandleNewConnection(s: State, fd: int): State {
    var c := |s.conns|;
    s.(conns := s.conns + [Conn(fd, s.nextId, s.nextLoop, Invalid, true, false, false)],
       table := s.table[fd := c],
       nextId := if s.nextId + 1 == 1000 then 1 else s.nextId + 1,
       nextLoop := if s.nextLoop + 1 == |s.loopQueues| then 0 else s.nextLoop + 1,
       establishing := Some(c))
  }

  // erase what find found, then queue ConnectionDestructor.
  function HandleCloseInLoop(s: State, c: nat): State
    requires IsConn(s, c)
  {
    var k := s.conns[c];
    if k.fd !in s.table || k.loop >= |s.loopQueues| then s.(aborted := true)
    else
      s.(table := s.table - {k.fd}, torn := s.torn + [c],
         loopQueues := s.loopQueues[k.loop := s.loopQueues[k.loop] + [c]])
  }

  function ConnectionDestructor(s: State, c: nat): State
    requires IsConn(s, c)
  {
    Update(s, c, s.conns[c].(registered := false, detached := true))
  }

  function Next(s: State, step: Step): State {
    match step
    case Accept(fd) => HandleNewConnection(s, fd)
    case SetConnected =>
      if s.establishing.Some? && IsConn(s, s.establishing.value) then
        Update(s, s.establishing.value, s.conns[s.establishing.value].(state := Connected))
      else s
    case FinishEstablishing =>
      if s.establishing.Some? && IsConn(s, s.establishing.value) then
        var c := s.establishing.value;
        Release(Update(s, c, s.conns[c].(registered := true)).(establishing := None), c)
      else s
    case Copy(c) => s.(holds := s.holds + multiset{c})
    case Drop(c) => if IsConn(s, c) then Release(s.(holds := s.holds - multiset{c}), c) else s
    case Close(c) =>
      if !IsConn(s, c) || s.conns[c].state == Disconnected then s
      else Update(s, c, s.conns[c].(state := Disconnected)).(closing := s.closing + {c})
    case Post(c) => s.(closing := s.closing - {c}, mainQueue := s.mainQueue + [c])
    case CloseOnMain(c) =>
      if !IsConn(s, c) || s.conns[c].state == Disconnected then s
      else HandleCloseInLoop(Update(s, c, s.conns[c].(state := Disconnected)), c)
    case RunMain =>
      if s.mainQueue == [] || !IsConn(s, s.mainQueue[0]) then s
      else
        var c := s.mainQueue[0];
        HandleCloseInLoop(s.(mainQueue := s.mainQueue[1..], holds := s.holds + multiset{c}), c)
    case RunLoop(l) =>
      if l >= |s.loopQueues| || s.loopQueues[l] == [] || !IsConn(s, s.loopQueues[l][0]) then s
      else
        var c := s.loopQueues[l][0];
        ConnectionDestructor(
          s.(loopQueues := s.loopQueues[l := s.loopQueues[l][1..]], holds := s.holds + multiset{c}), c)
    case Poll(l, ready) => if l < |s.batches| then s.(batches := s.batches[l := ready]) else s
    case Deliver(l, c) =>
      if l >= |s.batches| || !IsConn(s, c) then s
      else if s.conns[c].destroyed then s.(batches := s.batches[l := s.batches[l] - {c}], dangling := s.dangling + {c})
      else s.(batches := s.batches[l := s.batches[l] - {c}], holds := s.holds + multiset{c})
    case EnableWrite(c) =>
      if !IsConn(s, c) then s
      else Update(s, c, s.conns[c].(registered := true)).(late := if s.conns[c].detached then s.late + {c} else s.late)
    case OpenOther(fd) => s.(others := s.others + {fd})
    case CloseOther(fd) => s.(others := s.others - {fd})
  }

  /// What every step keeps.

  // How far the teardown of a connection has come.
  function Stage(s: State, c: nat): (n: nat)
    requires IsConn(s, c)
    ensures n <= 4
  {
    if s.conns[c].state != Disconnected then 0
    else if c in s.closing then 1
    else if c in s.mainQueue then 2
    else if InLoopQueue(s, c) then 3
    else 4
  }

  predicate ConnOk(s: State, c: nat)
    requires IsConn(s, c)
  {
    var k := s.conns[c];
    && k.loop < |s.loopQueues| == |s.batches| && 1 <= k.id < 1000
    && (c in s.closing ==> Stage(s, c) == 1)
    && (c in s.mainQueue ==> Stage(s, c) == 2)
    && (forall l | 0 <= l < |s.loopQueues| && c in s.loopQueues[l] :: l == k.loop && Stage(s, c) == 3)
    && (k.detached <==> Stage(s, c) == 4)
    && (InTable(s, c) <==> Stage(s, c) <= 2)
    && (c in s.torn <==> Stage(s, c) >= 3)
    && (k.destroyed <==> !Referenced(s, c))
    && (k.registered <==> !k.detached || c in s.late)
    && (c in s.late ==> k.detached)
    && (k.state == Invalid ==> s.establishing == Some(c))
    && (s.establishing == Some(c) ==> Stage(s, c) <= 2)
    && forall l | 0 <= l < |s.batches| && c in s.batches[l] :: l == k.loop && (k.detached ==> c in s.late)
  }

  predicate NoDup(q: seq<nat>) {
    forall i, j | 0 <= i < j < |q| :: q[i] != q[j]
  }

  predicate QueueBelow(q: seq<nat>, n: nat) {
    forall c | c in q :: c < n
  }

  predicate SetBelow(q: set<nat>, n: nat) {
    forall c | c in q :: c < n
  }

  predicate InRange(s: State) {
    var n := |s.conns|;
    && SetBelow(s.closing, n) && SetBelow(s.late, n) && QueueBelow(s.mainQueue, n) && QueueBelow(s.torn, n)
    && (forall l | 0 <= l < |s.loopQueues| :: QueueBelow(s.loopQueues[l], n))
    && (forall l | 0 <= l < |s.batches| :: SetBelow(s.batches[l], n))
    && (forall c | c in s.holds :: c < n)
    && (forall fd | fd in s.table :: IsConn(s, s.table[fd]) && s.conns[s.table[fd]].fd == fd)
    && (s.establishing.Some? ==> IsConn(s, s.establishing.value))
  }

  predicate Shape(s: State) {
    && |s.batches| == |s.loopQueues| && s.nextLoop < |s.loopQueues| && 1 <= s.nextId < 1000
    && NoDup(s.mainQueue) && NoDup(s.torn) && forall l | 0 <= l < |s.loopQueues| :: NoDup(s.loopQueues[l])
  }

  // Open descriptors differ.
  predicate Distinct(s: State) {
    && (forall c | 0 <= c < |s.conns| && !s.conns[c].destroyed :: s.conns[c].fd !in s.others)
    && forall c, d | 0 <= c < d < |s.conns| && !s.conns[c].destroyed && !s.conns[d].destroyed ::
         s.conns[c].fd != s.conns[d].fd
  }

  ghost predicate Inv(s: State) {
    && Shape(s) && InRange(s) && Distinct(s)
    && !s.aborted && s.dangling <= s.late
    && forall c | 0 <= c < |s.conns| :: ConnOk(s, c)
  }

  lemma InitialInv(loops: nat)
    requires loops > 0
    ensures Inv(Initial(loops))
  {
  }

  /// Queues without duplicates.

  lemma Popped(q: seq<nat>, n: nat)
    requires q != [] && NoDup(q) && QueueBelow(q, n)
    ensures q[0] in q && q[0] < n && q[0] !in q[1..] && NoDup(q[1..]) && QueueBelow(q[1..], n)
    ensures forall c :: c in q <==> c == q[0] || c in q[1..]
  {
    assert q == [q[0]] + q[1..];
    assert forall c | c in q[1..] :: c in q;
  }

  /// Each step, first for one connection, then as a whole.

  lemma TableEntryIsOpen(s: State, fd: int)
    requires Inv(s) && fd in s.table
    ensures IsOpen(s, fd)
  {
    var c := s.table[fd];
    assert InTable(s, c) && Referenced(s, c) && ConnOk(s, c);
  }

  lemma FreshDescriptor(s: State, fd: int)
    requires Inv(s) && !IsOpen(s, fd)
    ensures fd !in s.table
  {
    if fd in s.table { TableEntryIsOpen(s, fd); }
  }

  // An event can reach a destroyed connection only after a late registration.
  lemma DanglingIsLate(s: State, l: nat, c: nat)
    requires IsConn(s, c) && ConnOk(s, c) && l < |s.batches| && c in s.batches[l] && s.conns[c].destroyed
    ensures c in s.late
  {
  }

  lemma PostQueue(s: State, c: nat)
    requires Shape(s) && InRange(s) && IsConn(s, c) && ConnOk(s, c) && c in s.closing
    ensures NoDup(s.mainQueue + [c]) && QueueBelow(s.mainQueue + [c], |s.conns|)
    ensures forall d :: d in s.mainQueue + [c] <==> d == c || d in s.mainQueue
  {
  }

  // While it is in the table, a connection is in no other loop's queue.
  lemma ToLoopQueue(s: State, c: nat)
    requires Shape(s) && InRange(s) && IsConn(s, c) && ConnOk(s, c) && Stage(s, c) <= 2
    ensures InTable(s, c) && c !in s.torn && NoDup(s.torn + [c]) && QueueBelow(s.torn + [c], |s.conns|)
    ensures s.conns[c].loop < |s.loopQueues|
    ensures var q := s.loopQueues[s.conns[c].loop];
      c !in q && NoDup(q + [c]) && QueueBelow(q + [c], |s.conns|) && forall d :: d in q + [c] <==> d == c || d in q
  {
  }

  lemma AcceptConn(s: State, fd: int, d: nat)
    requires Shape(s) && InRange(s) && Enabled(s, Accept(fd)) && IsConn(Next(s, Accept(fd)), d)
    requires IsConn(s, d) ==> ConnOk(s, d)
    requires fd !in s.table
    ensures ConnOk(Next(s, Accept(fd)), d)
  {
  }

  lemma AcceptKeeps(s: State, fd: int)
    requires Inv(s) && Enabled(s, Accept(fd))
    ensures Inv(Next(s, Accept(fd)))
  {
    hide ConnOk;
    FreshDescriptor(s, fd);
    forall d | 0 <= d < |Next(s, Accept(fd)).conns|
      ensures ConnOk(Next(s, Accept(fd)), d)
    {
      AcceptConn(s, fd, d);
    }
  }

  lemma SetConnectedConn(s: State, d: nat)
    requires Shape(s) && InRange(s) && Enabled(s, SetConnected) && IsConn(Next(s, SetConnected), d)
    requires IsConn(s, d) ==> ConnOk(s, d)
    ensures ConnOk(Next(s, SetConnected), d)
  {
  }

  lemma SetConnectedKeeps(s: State)
    requires Inv(s) && Enabled(s, SetConnected)
    ensures Inv(Next(s, SetConnected))
  {
    hide ConnOk;
    forall d | 0 <= d < |Next(s, SetConnected).conns|
      ensures ConnOk(Next(s, SetConnected), d)
    {
      SetConnectedConn(s, d);
    }
  }

  lemma FinishEstablishingConn(s: State, d: nat)
    requires Shape(s) && InRange(s) && Enabled(s, FinishEstablishing) && IsConn(Next(s, FinishEstablishing), d)
    requires IsConn(s, d) ==> ConnOk(s, d)
    requires ConnOk(s, s.establishing.value)
    ensures ConnOk(Next(s, FinishEstablishing), d)
  {
  }

  lemma FinishEstablishingKeeps(s: State)
    requires Inv(s) && Enabled(s, FinishEstablishing)
    ensures Inv(Next(s, FinishEstablishing))
  {
    hide ConnOk;
    forall d | 0 <= d < |Next(s, FinishEstablishing).conns|
      ensures ConnOk(Next(s, FinishEstablishing), d)
    {
      FinishEstablishingConn(s, d);
    }
  }

  lemma CopyConn(s: State, c: nat, d: nat)
    requires Shape(s) && InRange(s) && Enabled(s, Copy(c)) && IsConn(Next(s, Copy(c)), d)
    requires IsConn(s, d) ==> ConnOk(s, d)
    ensures ConnOk(Next(s, Copy(c)), d)
  {
  }

  lemma CopyKeeps(s: State, c: nat)
    requires Inv(s) && Enabled(s, Copy(c))
    ensures Inv(Next(s, Copy(c)))
  {
    hide ConnOk;
    forall d | 0 <= d < |Next(s, Copy(c)).conns|
      ensures ConnOk(Next(s, Copy(c)), d)
    {
      CopyConn(s, c, d);
    }
  }

  // What others hold and are does not matter.
  lemma OtherHolds(s: State, conns: seq<Conn>, holds: multiset<nat>, d: nat)
    requires IsConn(s, d) && ConnOk(s, d) && |conns| == |s.conns| && conns[d] == s.conns[d] && (d in holds <==> d in s.holds)
    ensures ConnOk(s.(conns := conns, holds := holds), d)
  {
  }

  lemma DropOthers(s: State, c: nat, d: nat)
    requires Shape(s) && InRange(s) && Enabled(s, Drop(c)) && IsConn(s, d) && d != c && ConnOk(s, d)
    ensures ConnOk(Next(s, Drop(c)), d)
  {
    hide ConnOk, Referenced;
    var t := Next(s, Drop(c));
    assert t == s.(conns := t.conns, holds := t.holds);
    OtherHolds(s, t.conns, t.holds, d);
  }

  lemma DropItself(s: State, c: nat)
    requires Shape(s) && InRange(s) && Enabled(s, Drop(c)) && ConnOk(s, c)
    ensures ConnOk(Next(s, Drop(c)), c)
  {
    var h := s.(holds := s.holds - multiset{c});
    assert Stage(h, c) == Stage(s, c);
    assert Referenced(Release(h, c), c) == Referenced(h, c);
  }

  lemma DropConn(s: State, c: nat, d: nat)
    requires Shape(s) && InRange(s) && Enabled(s, Drop(c)) && IsConn(s, d) && ConnOk(s, d)
    ensures IsConn(Next(s, Drop(c)), d) && ConnOk(Next(s, Drop(c)), d)
  {
    hide ConnOk;
    if d == c { DropItself(s, c); } else { DropOthers(s, c, d); }
  }

  lemma DropKeeps(s: State, c: nat)
    requires Inv(s) && Enabled(s, Drop(c))
    ensures Inv(Next(s, Drop(c)))
  {
    hide ConnOk;
    forall d | 0 <= d < |Next(s, Drop(c)).conns|
      ensures ConnOk(Next(s, Drop(c)), d)
    {
      DropConn(s, c, d);
    }
  }

  lemma CloseConn(s: State, c: nat, d: nat)
    requires Shape(s) && InRange(s) && Enabled(s, Close(c)) && IsConn(Next(s, Close(c)), d)
    requires IsConn(s, d) ==> ConnOk(s, d)
    ensures ConnOk(Next(s, Close(c)), d)
  {
  }

  lemma CloseKeeps(s: State, c: nat)
    requires Inv(s) && Enabled(s, Close(c))
    ensures Inv(Next(s, Close(c)))
  {
    hide ConnOk;
    forall d | 0 <= d < |Next(s, Close(c)).conns|
      ensures ConnOk(Next(s, Close(c)), d)
    {
      CloseConn(s, c, d);
    }
  }

  lemma PostConn(s: State, c: nat, d: nat)
    requires Shape(s) && InRange(s) && Enabled(s, Post(c)) && IsConn(Next(s, Post(c)), d)
    requires IsConn(s, d) ==> ConnOk(s, d)
    requires IsConn(s, c) && ConnOk(s, c)
    ensures ConnOk(Next(s, Post(c)), d)
  {
    PostQueue(s, c);
  }

  lemma PostKeeps(s: State, c: nat)
    requires Inv(s) && Enabled(s, Post(c))
    ensures Inv(Next(s, Post(c)))
  {
    hide ConnOk;
    PostQueue(s, c);
    forall d | 0 <= d < |Next(s, Post(c)).conns|
      ensures ConnOk(Next(s, Post(c)), d)
    {
      PostConn(s, c, d);
    }
  }

  lemma CloseOnMainConn(s: State, c: nat, d: nat)
    requires Shape(s) && InRange(s) && Enabled(s, CloseOnMain(c)) && IsConn(Next(s, CloseOnMain(c)), d)
    requires IsConn(s, d) ==> ConnOk(s, d)
    requires IsConn(s, c) && ConnOk(s, c)
    ensures ConnOk(Next(s, CloseOnMain(c)), d)
  {
    if s.conns[c].state != Disconnected { ToLoopQueue(s, c); }
  }

  lemma CloseOnMainKeeps(s: State, c: nat)
    requires Inv(s) && Enabled(s, CloseOnMain(c))
    ensures Inv(Next(s, CloseOnMain(c)))
  {
    hide ConnOk;
    if s.conns[c].state != Disconnected { ToLoopQueue(s, c); }
    forall d | 0 <= d < |Next(s, CloseOnMain(c)).conns|
      ensures ConnOk(Next(s, CloseOnMain(c)), d)
    {
      CloseOnMainConn(s, c, d);
    }
  }

  lemma RunMainConn(s: State, d: nat)
    requires Shape(s) && InRange(s) && Enabled(s, RunMain) && IsConn(Next(s, RunMain), d)
    requires IsConn(s, d) ==> ConnOk(s, d)
    requires IsConn(s, s.mainQueue[0]) && ConnOk(s, s.mainQueue[0])
    ensures ConnOk(Next(s, RunMain), d)
  {
    Popped(s.mainQueue, |s.conns|);
    ToLoopQueue(s, s.mainQueue[0]);
  }

  lemma RunMainKeeps(s: State)
    requires Inv(s) && Enabled(s, RunMain)
    ensures Inv(Next(s, RunMain))
  {
    hide ConnOk;
    Popped(s.mainQueue, |s.conns|);
    ToLoopQueue(s, s.mainQueue[0]);
    forall d | 0 <= d < |Next(s, RunMain).conns|
      ensures ConnOk(Next(s, RunMain), d)
    {
      RunMainConn(s, d);
    }
  }

  lemma RunLoopConn(s: State, l: nat, d: nat)
    requires Shape(s) && InRange(s) && Enabled(s, RunLoop(l)) && IsConn(Next(s, RunLoop(l)), d)
    requires IsConn(s, d) ==> ConnOk(s, d)
    requires IsConn(s, s.loopQueues[l][0]) && ConnOk(s, s.loopQueues[l][0])
    ensures ConnOk(Next(s, RunLoop(l)), d)
  {
    Popped(s.loopQueues[l], |s.conns|);
  }

  lemma RunLoopKeeps(s: State, l: nat)
    requires Inv(s) && Enabled(s, RunLoop(l))
    ensures Inv(Next(s, RunLoop(l)))
  {
    hide ConnOk;
    Popped(s.loopQueues[l], |s.conns|);
    forall d | 0 <= d < |Next(s, RunLoop(l)).conns|
      ensures ConnOk(Next(s, RunLoop(l)), d)
    {
      RunLoopConn(s, l, d);
    }
  }

  lemma PollConn(s: State, l: nat, ready: set<nat>, d: nat)
    requires Shape(s) && InRange(s) && Enabled(s, Poll(l, ready)) && IsConn(Next(s, Poll(l, ready)), d)
    requires IsConn(s, d) ==> ConnOk(s, d)
    ensures ConnOk(Next(s, Poll(l, ready)), d)
  {
  }

  lemma PollKeeps(s: State, l: nat, ready: set<nat>)
    requires Inv(s) && Enabled(s, Poll(l, ready))
    ensures Inv(Next(s, Poll(l, ready)))
  {
    hide ConnOk;
    forall d | 0 <= d < |Next(s, Poll(l, ready)).conns|
      ensures ConnOk(Next(s, Poll(l, ready)), d)
    {
      PollConn(s, l, ready, d);
    }
  }

  lemma DeliverConn(s: State, l: nat, c: nat, d: nat)
    requires Shape(s) && InRange(s) && Enabled(s, Deliver(l, c)) && IsConn(Next(s, Deliver(l, c)), d)
    requires IsConn(s, d) ==> ConnOk(s, d)
    requires IsConn(s, c) && ConnOk(s, c)
    ensures ConnOk(Next(s, Deliver(l, c)), d)
  {
  }

  lemma DeliverKeeps(s: State, l: nat, c: nat)
    requires Inv(s) && Enabled(s, Deliver(l, c))
    ensures Inv(Next(s, Deliver(l, c)))
  {
    hide ConnOk;
    if s.conns[c].destroyed { DanglingIsLate(s, l, c); }
    forall d | 0 <= d < |Next(s, Deliver(l, c)).conns|
      ensures ConnOk(Next(s, Deliver(l, c)), d)
    {
      DeliverConn(s, l, c, d);
    }
  }

  lemma EnableWriteConn(s: State, c: nat, d: nat)
    requires Shape(s) && InRange(s) && Enabled(s, EnableWrite(c)) && IsConn(Next(s, EnableWrite(c)), d)
    requires IsConn(s, d) ==> ConnOk(s, d)
    ensures ConnOk(Next(s, EnableWrite(c)), d)
  {
  }

  lemma EnableWriteKeeps(s: State, c: nat)
    requires Inv(s) && Enabled(s, EnableWrite(c))
    ensures Inv(Next(s, EnableWrite(c)))
  {
    hide ConnOk;
    forall d | 0 <= d < |Next(s, EnableWrite(c)).conns|
      ensures ConnOk(Next(s, EnableWrite(c)), d)
    {
      EnableWriteConn(s, c, d);
    }
  }

  lemma OpenOtherConn(s: State, fd: int, d: nat)
    requires Shape(s) && InRange(s) && Enabled(s, OpenOther(fd)) && IsConn(Next(s, OpenOther(fd)), d)
    requires IsConn(s, d) ==> ConnOk(s, d)
    ensures ConnOk(Next(s, OpenOther(fd)), d)
  {
  }

  lemma OpenOtherKeeps(s: State, fd: int)
    requires Inv(s) && Enabled(s, OpenOther(fd))
    ensures Inv(Next(s, OpenOther(fd)))
  {
    hide ConnOk;
    forall d | 0 <= d < |Next(s, OpenOther(fd)).conns|
      ensures ConnOk(Next(s, OpenOther(fd)), d)
    {
      OpenOtherConn(s, fd, d);
    }
  }

  lemma CloseOtherConn(s: State, fd: int, d: nat)
    requires Shape(s) && InRange(s) && Enabled(s, CloseOther(fd)) && IsConn(Next(s, CloseOther(fd)), d)
    requires IsConn(s, d) ==> ConnOk(s, d)
    ensures ConnOk(Next(s, CloseOther(fd)), d)
  {
  }

  lemma CloseOtherKeeps(s: State, fd: int)
    requires Inv(s) && Enabled(s, CloseOther(fd))
    ensures Inv(Next(s, CloseOther(fd)))
  {
    hide ConnOk;
    forall d | 0 <= d < |Next(s, CloseOther(fd)).conns|
      ensures ConnOk(Next(s, CloseOther(fd)), d)
    {
      CloseOtherConn(s, fd, d);
    }
  }

}
