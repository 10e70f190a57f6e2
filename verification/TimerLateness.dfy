/** Which requests make a timer late: exactly those that are not timely, and
    inside a callback exactly those for the past. */
module TimerLateness {
  import opened Wrappers
  import opened TimerQueues
  import opened TimerTheorems

  /// After a request at time t0 that armed the descriptor, nothing fires for a while

  // Firings from the n-th on come no sooner than the clamp after t0.
  predicate Firings(s: State, t0: int, n: nat) {
    n <= |s.fired| && forall i | n <= i < |s.fired| :: s.fired[i].at >= t0 + CLAMP
  }

  predicate Deferred(s: State, t0: int, n: nat) {
    && t0 <= s.now && Firings(s, t0, n)
    && (s.armed.Some? ==> s.armed.value >= t0 + CLAMP)
  }

  lemma RequestKeepsDeferred(s: State, r: Request, t0: int, n: nat)
    requires Deferred(s, t0, n)
    ensures Deferred(Serve(s, r), t0, n)
  {
    ServeIsAdd(s, r);
    DeadlineIs(s.now, Expiry(s.now, r));
    hide Expiry, Deadline, Serve, Inserted;
  }

  lemma {:induction false} RequestsKeepDeferred(s: State, rs: seq<Request>, t0: int, n: nat)
    requires Deferred(s, t0, n)
    ensures Deferred(ServeAll(s, rs), t0, n) && ServeAll(s, rs).now == s.now
    decreases |rs|
  {
    hide Deferred, Serve;
    if rs == [] {
    } else {
      RequestKeepsDeferred(s, rs[0], t0, n);
      RequestsKeepDeferred(Serve(s, rs[0]), rs[1..], t0, n);
    }
  }

  lemma TimerKeepsDeferred(s: State, e: Entry, script: Script, t0: int, n: nat)
    requires Deferred(s, t0, n) && s.now >= t0 + CLAMP && e.timer < |s.made|
    ensures Deferred(RunTimer(s, e, script), t0, n) && RunTimer(s, e, script).now == s.now
  {
    RequestsKeepDeferred(s.(fired := s.fired + [Firing(e, s.now)]), script.requests, t0, n);
    hide ServeAll;
  }

  lemma {:induction false} TimersKeepDeferred(s: State, active: seq<Entry>, scripts: seq<Script>, t0: int, n: nat)
    requires Deferred(s, t0, n) && s.now >= t0 + CLAMP && Made(s, active) && |scripts| == |active|
    ensures Deferred(RunAll(s, active, scripts), t0, n) && RunAll(s, active, scripts).now == s.now
    decreases |active|
  {
    hide Deferred, RunTimer;
    if active == [] {
    } else {
      TimerKeepsDeferred(s, active[0], scripts[0], t0, n);
      TimersKeepDeferred(RunTimer(s, active[0], scripts[0]), active[1..], scripts[1..], t0, n);
    }
  }

  lemma {:induction false} RestartLeaves(s: State, active: seq<Entry>)
    requires Made(s, active)
    ensures var t := Restart(s, active); t.now == s.now && t.fired == s.fired && t.armed == s.armed
    decreases |active|
  {
    hide Inserted, AddTime;
    if active == [] {
    } else {
      var i := active[0].timer;
      RestartLeaves(if s.made[i].repeat then Insert(Again(s, i), i) else s, active[1..]);
    }
  }

  lemma ResetKeepsDeferred(s: State, active: seq<Entry>, t0: int, n: nat)
    requires Deferred(s, t0, n) && Made(s, active)
    ensures Deferred(ResetTimers(s, active), t0, n)
  {
    RestartLeaves(s, active);
    hide Restart, Deadline;
    var t := Restart(s, active);
    if t.timers != [] && t.timers[0].timer < |t.made| { DeadlineIs(t.now, t.made[t.timers[0].timer].expiration); }
  }

  lemma StepKeepsDeferred(s: State, step: Step, t0: int, n: nat)
    requires Deferred(s, t0, n) && Enabled(s, step)
    ensures Deferred(Next(s, step), t0, n)
  {
    hide RunAll, ResetTimers, Serve, LowerBound;
    match step {
      case Request(r) => RequestKeepsDeferred(s, r, t0, n);
      case Tick(_) =>
      case Fire(scripts) =>
        var active := Due(s);
        var t := s.(armed := None, timers := s.timers[|active|..]);
        TimersKeepDeferred(t, active, scripts, t0, n);
        ResetKeepsDeferred(RunAll(t, active, scripts), active, t0, n);
    }
  }

  lemma {:induction false} RunKeepsDeferred(s: State, run: seq<Step>, t0: int, n: nat)
    requires Deferred(s, t0, n) && Legal(s, run)
    ensures Deferred(Final(s, run), t0, n)
    decreases |run|
  {
    hide Deferred, Enabled, Next;
    if run == [] {
    } else {
      StepKeepsDeferred(s, run[0], t0, n);
      RunKeepsDeferred(Next(s, run[0]), run[1..], t0, n);
    }
  }

  lemma UntimelyDefers(s: State, r: Request)
    requires !Timely(s, r)
    ensures Deferred(Serve(s, r), s.now, |s.fired|)
  {
    ServeIsAdd(s, r);
    DeadlineIs(s.now, Expiry(s.now, r));
    hide Expiry, Deadline, Serve, Inserted;
  }

  // Whatever follows, a timer asked for out of time is late when it fires.
  lemma UntimelyIsLate(s: State, r: Request, run: seq<Step>, i: nat)
    requires !Timely(s, r) && Legal(Serve(s, r), run)
    requires var t := Final(Serve(s, r), run);
      |s.fired| <= i < |t.fired| && t.fired[i].entry == Entry(Expiry(s.now, r), |s.made|)
    ensures var f := Final(Serve(s, r), run).fired[i]; f.at > f.entry.key + 100
  {
    UntimelyDefers(s, r);
    RunKeepsDeferred(Serve(s, r), run, s.now, |s.fired|);
    hide Serve, Final, Legal, Expiry;
  }

  // So over the otherwise timely continuations that fire it, all callbacks are
  // in time exactly when the request was.
  lemma PunctualExactly(s: State, r: Request, run: seq<Step>, i: nat)
    requires Inv(s) && Legal(Serve(s, r), run) && AllTimely(Serve(s, r), run)
    requires var t := Final(Serve(s, r), run);
      |s.fired| <= i < |t.fired| && t.fired[i].entry == Entry(Expiry(s.now, r), |s.made|)
    ensures Punctual(Final(Serve(s, r), run)) <==> Timely(s, r)
  {
    if Timely(s, r) {
      RequestKeepsExactly(s, r);
      RunKeeps(Serve(s, r), run);
    } else {
      UntimelyIsLate(s, r, run, i);
      hide Serve, Final, Legal, AllTimely, Expiry, Timely;
    }
  }

  /// Inside a callback

  lemma ServeAdds(s: State, r: Request)
    ensures Entry(Expiry(s.now, r), |s.made|) in Serve(s, r).timers
    ensures forall e | e in s.timers :: e in Serve(s, r).timers
  {
    ServeIsAdd(s, r);
    InsertedSame(s.timers, Entry(Expiry(s.now, r), |s.made|));
    hide Expiry, Deadline, Serve, Inserted;
  }

  lemma {:induction false} ServeAllGrows(s: State, rs: seq<Request>, e: Entry)
    requires e in s.timers
    ensures e in ServeAll(s, rs).timers
    decreases |rs|
  {
    hide Serve;
    if rs == [] {
    } else {
      ServeAdds(s, rs[0]);
      ServeAllGrows(Serve(s, rs[0]), rs[1..], e);
    }
  }

  lemma {:induction false} ServeAllAdds(s: State, rs: seq<Request>, j: nat) returns (e: Entry)
    requires j < |rs|
    ensures e in ServeAll(s, rs).timers && e.key == Expiry(s.now, rs[j])
    decreases |rs|
  {
    hide Serve, Expiry;
    ServeAdds(s, rs[0]);
    var t := Serve(s, rs[0]);
    if j == 0 {
      e := Entry(Expiry(s.now, rs[0]), |s.made|);
      ServeAllGrows(t, rs[1..], e);
    } else {
      e := ServeAllAdds(t, rs[1..], j - 1);
    }
  }

  lemma {:induction false} RunAllGrows(s: State, active: seq<Entry>, scripts: seq<Script>, e: Entry)
    requires Made(s, active) && |scripts| == |active| && e in s.timers
    ensures e in RunAll(s, active, scripts).timers
    decreases |active|
  {
    hide ServeAll;
    if active == [] {
    } else {
      ServeAllGrows(s.(fired := s.fired + [Firing(active[0], s.now)]), scripts[0].requests, e);
      RunAllGrows(RunTimer(s, active[0], scripts[0]), active[1..], scripts[1..], e);
    }
  }

  lemma {:induction false} ServeAllKeepsTime(s: State, rs: seq<Request>)
    ensures ServeAll(s, rs).now == s.now
    decreases |rs|
  {
    hide Serve;
    if rs == [] {
    } else {
      ServeAllKeepsTime(Serve(s, rs[0]), rs[1..]);
    }
  }

  lemma {:induction false} RunAllAdds(s: State, active: seq<Entry>, scripts: seq<Script>, i: nat, j: nat) returns (e: Entry)
    requires Made(s, active) && |scripts| == |active| && i < |active| && j < |scripts[i].requests|
    ensures e in RunAll(s, active, scripts).timers && e.key == Expiry(s.now, scripts[i].requests[j])
    decreases |active|
  {
    hide ServeAll, Expiry;
    var f := s.(fired := s.fired + [Firing(active[0], s.now)]);
    var t := RunTimer(s, active[0], scripts[0]);
    ServeAllKeepsTime(f, scripts[0].requests);
    if i == 0 {
      e := ServeAllAdds(f, scripts[0].requests, j);
      RunAllGrows(t, active[1..], scripts[1..], e);
    } else {
      e := RunAllAdds(t, active[1..], scripts[1..], i - 1, j);
    }
  }

  lemma {:induction false} RunAllKeepsTime(s: State, active: seq<Entry>, scripts: seq<Script>)
    requires Made(s, active) && |scripts| == |active|
    ensures RunAll(s, active, scripts).now == s.now
    decreases |active|
  {
    hide ServeAll;
    if active == [] {
    } else {
      ServeAllKeepsTime(s.(fired := s.fired + [Firing(active[0], s.now)]), scripts[0].requests);
      RunAllKeepsTime(RunTimer(s, active[0], scripts[0]), active[1..], scripts[1..]);
    }
  }

  // A pending entry for the past is never within the window of the clamp.
  lemma PastBreaksWindow(s: State, active: seq<Entry>, e: Entry)
    requires Made(s, active) && e in s.timers && e.key < s.now
    ensures !Inv(ResetTimers(s, active))
  {
    RestartLeaves(s, active);
    RestartGrows(s, active, e);
    hide Restart, Deadline, FiredEntries, Distinct, Repeats, Conserved;
    var t := Restart(s, active);
    var k :| 0 <= k < |t.timers| && t.timers[k] == e;
    var u := ResetTimers(s, active);
    if t.timers[0].timer < |t.made| {
      DeadlineIs(t.now, t.made[t.timers[0].timer].expiration);
      assert Sorted(u.timers) && k > 0 ==> Before(u.timers[0], u.timers[k]);
    }
  }

  // Handling the expired descriptor keeps the invariant exactly when no
  // callback asks for the past.
  lemma FireKeepsExactly(s: State, scripts: seq<Script>)
    requires Inv(s) && Enabled(s, Fire(scripts))
    ensures Inv(Next(s, Fire(scripts))) <==> ScriptsFuture(s.now, scripts)
  {
    hide Inv, RunAll, ResetTimers, Expiry;
    if ScriptsFuture(s.now, scripts) {
      HandleReadKeeps(s, scripts);
    } else {
      var i: nat :| i < |scripts| && !AllFuture(s.now, scripts[i].requests);
      var j: nat :| j < |scripts[i].requests| && Expiry(s.now, scripts[i].requests[j]) < s.now;
      var active := Due(s);
      var t := s.(armed := None, timers := s.timers[|active|..]);
      var e := RunAllAdds(t, active, scripts, i, j);
      RunAllKeepsTime(t, active, scripts);
      PastBreaksWindow(RunAll(t, active, scripts), active, e);
    }
  }

  lemma TickKeepsAlways(s: State, to: int)
    requires Inv(s) && Enabled(s, Tick(to))
    ensures Inv(Next(s, Tick(to)))
  {
    StepKeeps(s, Tick(to));
  }

  // Every step keeps the invariant exactly when it is timely.
  lemma StepKeepsExactly(s: State, step: Step)
    requires Inv(s) && Enabled(s, step)
    ensures Inv(Next(s, step)) <==> StepTimely(s, step)
  {
    hide Inv, Serve, HandleRead, Timely, ScriptsFuture;
    match step {
      case Request(r) => RequestKeepsExactly(s, r);
      case Tick(to) => TickKeepsAlways(s, to);
      case Fire(scripts) => FireKeepsExactly(s, scripts);
    }
  }
}
