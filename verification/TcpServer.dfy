/** The functions of src/NetWork/TcpServer.cpp and src/NetWork/TcpConnection.cpp
    that take part in the teardown, each as one step of the protocol. */
module TcpServers {
  import opened Wrappers
  import opened Teardown

  class TcpServer {
    var connections: seq<Conn>
    var connectionsMap: map<int, nat>
    var nextConnId: int
    var nextLoop: nat
    var establishing: Option<nat>
    var closing: set<nat>
    var mainToDo: seq<nat>
    var loopToDo: seq<seq<nat>>
    var active: seq<set<nat>>
    var holds: multiset<nat>
    ghost var others: set<int>
    ghost var torn: seq<nat>
    ghost var late: set<nat>
    ghost var dangling: set<nat>

    ghost function View(): State
      reads this
    {
      State(connections, connectionsMap, nextConnId, nextLoop, establishing, closing, mainToDo, loopToDo, active, holds,
            others, torn, late, dangling, false)
    }

    constructor (loops: nat)
      requires loops > 0
      ensures View() == Initial(loops) && Inv(View())
    {
      connections, connectionsMap, nextConnId, nextLoop, establishing := [], map[], 1, 0, None;
      closing, mainToDo, loopToDo, active, holds := {}, [], seq(loops, _ => []), seq(loops, _ => {}), multiset{};
      others, torn, late, dangling := {}, [], {}, {};
      new;
      InitialInv(loops);
    }

    // EventLoopThreadPool::nextloop
    method PickLoop() returns (loop: nat)
      requires nextLoop < |loopToDo|
      modifies this`nextLoop
      ensures loop == old(nextLoop)
      ensures nextLoop == if loop + 1 == |loopToDo| then 0 else loop + 1
    {
      loop := nextLoop;
      nextLoop := nextLoop + 1;
      if nextLoop == |loopToDo| { nextLoop := 0; }
    }

    method HandleNewConnection(fd: int)
      requires Inv(View()) && Enabled(View(), Accept(fd))
      modifies this
      ensures View() == Next(old(View()), Accept(fd)) && Inv(View())
    {
      hide ConnOk, InRange, Distinct;
      AcceptKeeps(View(), fd);
      var conn := |connections|;
      var subReactor := PickLoop();
      // EnableET in the constructor of the connection adds its channel to epoll.
      connections := connections + [Conn(fd, nextConnId, subReactor, Invalid, true, false, false)];
      connectionsMap := connectionsMap[fd := conn];
      nextConnId := nextConnId + 1;
      if nextConnId == 1000 { nextConnId := 1; }
      establishing := Some(conn);
    }

    // ConnectionEstablished after the connect callback, up to the new state.
    method ConnectionEstablished()
      requires Inv(View()) && Enabled(View(), Step.SetConnected)
      modifies this`connections
      ensures View() == Next(old(View()), Step.SetConnected) && Inv(View())
    {
      hide ConnOk, InRange, Distinct;
      SetConnectedKeeps(View());
      var c := establishing.value;
      connections := connections[c := connections[c].(state := Connected)];
    }

    // Tie and EnableRead; then HandleNewConnection drops its pointer.
    method EnableRead()
      requires Inv(View()) && Enabled(View(), FinishEstablishing)
      modifies this
      ensures View() == Next(old(View()), FinishEstablishing) && Inv(View())
    {
      hide ConnOk, InRange, Distinct;
      FinishEstablishingKeeps(View());
      var c := establishing.value;
      connections := connections[c := connections[c].(registered := true)];
      establishing := None;
      Reset(c);
    }

    // A shared pointer went away: the last one runs ~TcpConnection.
    method Reset(c: nat)
      requires c < |connections|
      modifies this`connections
      ensures View() == Release(old(View()), c)
    {
      var k := connections[c];
      var referenced :=
        || (k.fd in connectionsMap && connectionsMap[k.fd] == c)
        || c in closing || c in mainToDo || (k.loop < |loopToDo| && c in loopToDo[k.loop])
        || c in holds || establishing == Some(c);
      if !referenced {
        connections := connections[c := k.(destroyed := true)];
      }
    }

    method DropPointer(c: nat)
      requires Inv(View()) && Enabled(View(), Drop(c))
      modifies this
      ensures View() == Next(old(View()), Drop(c)) && Inv(View())
    {
      hide ConnOk, InRange, Distinct, Referenced;
      DropKeeps(View(), c);
      holds := holds - multiset{c};
      Reset(c);
    }

    // TcpConnection::HandleClose on a thread of a sub-reactor: test and set.
    method HandleClose(c: nat)
      requires Inv(View()) && Enabled(View(), Step.Close(c))
      modifies this
      ensures View() == Next(old(View()), Step.Close(c)) && Inv(View())
    {
      hide ConnOk, InRange, Distinct;
      CloseKeeps(View(), c);
      if connections[c].state != Disconnected {
        connections := connections[c := connections[c].(state := Disconnected)];
        closing := closing + {c};
      }
    }

    // Its second half: TcpServer::HandleClose hands over to the main reactor.
    method PostClose(c: nat)
      requires Inv(View()) && Enabled(View(), Post(c))
      modifies this
      ensures View() == Next(old(View()), Post(c)) && Inv(View())
    {
      hide ConnOk, InRange, Distinct;
      PostKeeps(View(), c);
      closing := closing - {c};
      mainToDo := mainToDo + [c];
    }

    // HandleClose on the main thread does not queue.
    method HandleCloseOnMain(c: nat)
      requires Inv(View()) && Enabled(View(), Step.CloseOnMain(c))
      modifies this
      ensures View() == Next(old(View()), Step.CloseOnMain(c)) && Inv(View())
    {
      CloseOnMainKeeps(View(), c);
      assert ConnOk(View(), c);
      hide ConnOk, InRange, Distinct, Inv;
      if connections[c].state != Disconnected {
        connections := connections[c := connections[c].(state := Disconnected)];
        EraseAndQueue(c);
      }
    }

    // The main reactor takes the next functor of its list.
    method RunMainFunctor()
      requires Inv(View()) && Enabled(View(), Step.RunMain)
      modifies this
      ensures View() == Next(old(View()), Step.RunMain) && Inv(View())
    {
      RunMainKeeps(View());
      var c := mainToDo[0];
      Popped(mainToDo, |connections|);
      assert ConnOk(View(), c);
      hide ConnOk, InRange, Distinct, Inv;
      mainToDo, holds := mainToDo[1..], holds + multiset{c};
      EraseAndQueue(c);
    }

    // TcpServer::HandleCloseInLoop with its assert.
    method EraseAndQueue(c: nat)
      requires c < |connections| && InTable(View(), c) && connections[c].loop < |loopToDo|
      modifies this
      ensures View() == HandleCloseInLoop(old(View()), c)
    {
      var fd, loop := connections[c].fd, connections[c].loop;
      assert fd in connectionsMap;
      connectionsMap := connectionsMap - {fd};
      torn := torn + [c];
      loopToDo := loopToDo[loop := loopToDo[loop] + [c]];
    }

    // A sub-reactor runs ConnectionDestructor.
    method RunLoopFunctor(l: nat)
      requires Inv(View()) && Enabled(View(), Step.RunLoop(l))
      modifies this
      ensures View() == Next(old(View()), Step.RunLoop(l)) && Inv(View())
    {
      RunLoopKeeps(View(), l);
      Popped(loopToDo[l], |connections|);
      hide ConnOk, InRange, Distinct, Inv;
      var c := loopToDo[l][0];
      loopToDo, holds := loopToDo[l := loopToDo[l][1..]], holds + multiset{c};
      connections := connections[c := connections[c].(registered := false, detached := true)];
    }

    // Channel::HandleEvent: the guard is taken before the handlers run.
    method HandleEvent(l: nat, c: nat) returns (alive: bool)
      requires Inv(View()) && Enabled(View(), Deliver(l, c))
      modifies this
      ensures View() == Next(old(View()), Deliver(l, c)) && Inv(View())
      ensures c !in late ==> alive && c in holds
    {
      DeliverKeeps(View(), l, c);
      assert ConnOk(View(), c);
      hide ConnOk, InRange, Distinct, Inv;
      active := active[l := active[l] - {c}];
      alive := !connections[c].destroyed;
      if alive {
        holds := holds + multiset{c};
      } else {
        dangling := dangling + {c};
      }
    }

    // Send leaves bytes behind: EnableWrite, which adds a deleted channel again.
    method RegisterWrite(c: nat)
      requires Inv(View()) && Enabled(View(), Step.EnableWrite(c))
      modifies this
      ensures View() == Next(old(View()), Step.EnableWrite(c)) && Inv(View())
    {
      hide ConnOk, InRange, Distinct;
      EnableWriteKeeps(View(), c);
      if connections[c].detached { late := late + {c}; }
      connections := connections[c := connections[c].(registered := true)];
    }
  }
}
