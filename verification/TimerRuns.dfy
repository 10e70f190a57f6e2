/** Two runs of the timer queue: the bound is reached, and a request for the past breaks it. */
module TimerRuns {
  import opened Wrappers
  import opened TimerQueues
  import opened TimerTheorems

  predicate Goes(s: State, step: Step, t: State) {
    Enabled(s, step) && Next(s, step) == t
  }

  lemma {:induction false} Then(s: State, run: seq<Step>, step: Step, t: State) returns (longer: seq<Step>)
    requires Legal(s, run) && Goes(Final(s, run), step, t)
    ensures Legal(s, longer) && Final(s, longer) == t && longer == run + [step]
    ensures AllTimely(s, run) && StepTimely(Final(s, run), step) ==> AllTimely(s, longer)
    decreases |run|
  {
    longer := run + [step];
    if run == [] {
      assert [step][1..] == [];
    } else {
      hide Enabled, Next, StepTimely;
      var rest := Then(Next(s, run[0]), run[1..], step, t);
      assert longer[1..] == rest;
    }
  }

  // A callback that does nothing.
  const NOTHING := Script([], false)

  // A state with one-shot timers only.
  function Shots(now: int, expirations: seq<int>, timers: seq<Entry>, armed: Option<int>, inserted: multiset<Entry>,
                 fired: seq<Firing>): State {
    State(now, seq(|expirations|, i requires 0 <= i < |expirations| => Timer(expirations[i], 0.0, false, MICROSECONDS)),
          timers, armed, inserted, fired)
  }

  lemma NoSteps(s: State)
    ensures Legal(s, []) && AllTimely(s, []) && Final(s, []) == s
  {
  }

  lemma Waits(s: State, to: int)
    requires s.now <= to && (s.armed.Some? ==> to <= s.armed.value)
    ensures Goes(s, Tick(to), s.(now := to))
  {
  }

  lemma FireNone(s: State)
    requires s.armed == Some(s.now) && s.timers != [] && s.timers[0].key >= s.now && s.timers[0].timer < |s.made|
    ensures Goes(s, Fire([]), s.(armed := Some(Deadline(s.now, s.made[s.timers[0].timer].expiration))))
  {
  }

  lemma RunOne(s: State, e: Entry)
    requires e.timer < |s.made| && !s.made[e.timer].repeat
    ensures RunTimer(s, e, NOTHING) == s.(fired := s.fired + [Firing(e, s.now)])
  {
  }

  lemma FireLast(s: State, e: Entry)
    requires s.armed == Some(s.now) && s.timers == [e] && e.key < s.now && e.timer < |s.made| && !s.made[e.timer].repeat
    ensures Goes(s, Fire([NOTHING]), s.(armed := None, timers := [], fired := s.fired + [Firing(e, s.now)]))
  {
    var t := s.(armed := None, timers := []);
    assert Due(s) == [e] && s.timers[1..] == [] && [e][1..] == [] && [NOTHING][1..] == [];
    RunOne(t, e);
    hide RunTimer;
    var u := RunTimer(t, e, NOTHING);
    assert RunAll(t, [e], [NOTHING]) == RunAll(u, [], []);
    assert Restart(u, [e]) == Restart(u, []);
  }

  lemma FirstRequest(delay: real, key: int)
    requires Expiry(0, After(delay, MICROSECONDS)) == key
    ensures var e := Entry(key, 0);
      Goes(Initial(0), Request(After(delay, MICROSECONDS)), Shots(0, [key], [e], Some(Deadline(0, key)), multiset{e}, []))
  {
  }

  // With nothing due the handler only arms the descriptor again: a timer
  // whose delay is at least the clamp is late by the whole of it.
  lemma BoundIsReached() returns (run: seq<Step>, e: Entry)
    ensures Legal(Initial(0), run) && AllTimely(Initial(0), run)
    ensures Final(Initial(0), run).fired == [Firing(e, e.key + 100)]
  {
    e := Entry(1000, 0);
    var all := multiset{e};
    var r := After(1000.0, MICROSECONDS);
    assert Expiry(0, r) == 1000;
    hide Goes, Legal, Final, Deadline, AddTime;
    DeadlineIs(0, 1000);
    DeadlineIs(1000, 1000);
    var s0 := Initial(0);
    var s1 := Shots(0, [1000], [e], Some(1000), all, []);
    var s2, s3, s4 := s1.(now := 1000), s1.(now := 1000, armed := Some(1100)), s1.(now := 1100, armed := Some(1100));
    FirstRequest(1000.0, 1000);
    Waits(s1, 1000);
    Waits(s3, 1100);
    FireNone(s2);
    FireLast(s4, e);
    NoSteps(s0);
    run := Then(s0, [], Request(r), s1);
    run := Then(s0, run, Tick(1000), s2);
    run := Then(s0, run, Fire([]), s3);
    run := Then(s0, run, Tick(1100), s4);
    run := Then(s0, run, Fire([NOTHING]), s4.(armed := None, timers := [], fired := [Firing(e, 1100)]));
  }

  lemma FireBoth(s: State, d: Entry, e: Entry)
    requires s.armed == Some(s.now) && s.timers == [d, e] && d.key < s.now && e.key < s.now
    requires d.timer < |s.made| && e.timer < |s.made| && !s.made[d.timer].repeat && !s.made[e.timer].repeat
    ensures Goes(s, Fire([NOTHING, NOTHING]),
                 s.(armed := None, timers := [], fired := s.fired + [Firing(d, s.now)] + [Firing(e, s.now)]))
  {
    var t := s.(armed := None, timers := []);
    assert s.timers[1..] == [e] && [e][1..] == [];
    assert Due(s) == [d, e] && s.timers[2..] == [];
    var scripts := [NOTHING, NOTHING];
    assert scripts[1..] == [NOTHING] && [NOTHING][1..] == [];
    RunOne(t, d);
    var u := t.(fired := s.fired + [Firing(d, s.now)]);
    RunOne(u, e);
    var v := u.(fired := u.fired + [Firing(e, s.now)]);
    hide RunTimer, LowerBound;
    assert RunAll(t, [d, e], scripts) == RunAll(u, [e], [NOTHING]) == RunAll(v, [], []);
    assert Restart(v, [d, e]) == Restart(v, [e]) == Restart(v, []);
  }

  // Two timers, the second inserted for the past.
  function Two(now: int): State {
    State(now, [Timer(0, 0.0, false, MICROSECONDS), Timer(-10, 0.0, false, SECONDS)], [Entry(-10, 1), Entry(0, 0)],
          Some(150), multiset{Entry(0, 0), Entry(-10, 1)}, [])
  }

  lemma SecondRequest()
    ensures Goes(Shots(50, [0], [Entry(0, 0)], Some(100), multiset{Entry(0, 0)}, []), Request(At(-10)), Two(50))
  {
  }

  lemma BothFire()
    ensures Goes(Two(150), Fire([NOTHING, NOTHING]), Two(150).(armed := None, timers := [],
                 fired := [Firing(Entry(-10, 1), 150), Firing(Entry(0, 0), 150)]))
  {
    hide Goes;
    FireBoth(Two(150), Entry(-10, 1), Entry(0, 0));
    var a, b := Firing(Entry(-10, 1), 150), Firing(Entry(0, 0), 150);
    assert Two(150).fired + [a] + [b] == [a, b];
  }

  // A request for the past makes another timer later than the bound: the
  // descriptor is armed again from the time of that request.
  lemma PastRequestDelaysOthers() returns (run: seq<Step>)
    ensures Legal(Initial(0), run) && Firing(Entry(0, 0), 150) in Final(Initial(0), run).fired && 150 > 0 + 100
  {
    var r := After(0.0, MICROSECONDS);
    assert Expiry(0, r) == 0;
    DeadlineIs(0, 0);
    FirstRequest(0.0, 0);
    var s0 := Initial(0);
    var s1 := Shots(0, [0], [Entry(0, 0)], Some(100), multiset{Entry(0, 0)}, []);
    Waits(s1, 50);
    SecondRequest();
    Waits(Two(50), 150);
    BothFire();
    NoSteps(s0);
    hide Goes, Legal, Final, Deadline, AddTime;
    run := Then(s0, [], Request(r), s1);
    run := Then(s0, run, Tick(50), s1.(now := 50));
    run := Then(s0, run, Request(At(-10)), Two(50));
    run := Then(s0, run, Tick(150), Two(150));
    run := Then(s0, run, Fire([NOTHING, NOTHING]), Two(150).(armed := None, timers := [],
                fired := [Firing(Entry(-10, 1), 150), Firing(Entry(0, 0), 150)]));
  }
}
