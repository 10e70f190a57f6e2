/** src/Timer/TimerQueue.cpp: an ordered set of timers behind one one-shot
    timerfd, with src/Timer/Timer.cpp and the arithmetic of src/Timer/TimeStamp.h.
    Times are microseconds on one clock that stands still while code runs. */
module TimerQueues {
  import opened Wrappers

  /// TimeStamp::AddTime

  datatype TimeUnit = MICROSECONDS | MILLISECONDS | SECONDS | MINUTES | HOURS

  function Factor(unit: TimeUnit): real {
    match unit
    case MICROSECONDS => 1.0
    case MILLISECONDS => 1000.0
    case SECONDS => 1000000.0
    case MINUTES => 60000000.0
    case HOURS => 3600000000.0
  }

  // The conversion to an integer type drops the fraction.
  function Truncate(x: real): int {
    if x >= 0.0 then x.Floor else -((-x).Floor)
  }

  function AddTime(t: int, x: real, unit: TimeUnit): (r: int)
    ensures x >= 0.0 ==> r >= t
    ensures x <= 0.0 ==> r <= t
  {
    t + Truncate(x * Factor(unit))
  }

  /// State

  datatype Timer = Timer(expiration: int, interval: real, repeat: bool, unit: TimeUnit)

  // A set entry: the key is a copy of the expiration, the timer an index into made.
  datatype Entry = Entry(key: int, timer: nat)

  datatype Firing = Firing(entry: Entry, at: int)

  // inserted and fired are history: every entry ever put into the set, and
  // every callback run.
  datatype State = State(
    now: int, made: seq<Timer>, timers: seq<Entry>, armed: Option<int>, inserted: multiset<Entry>, fired: seq<Firing>)

  function Initial(now: int): State {
    State(now, [], [], None, multiset{}, [])
  }

  // RunAfter, RunEvery and RunAt of EventLoop.
  datatype Request = After(delay: real, unit: TimeUnit) | Every(delay: real, unit: TimeUnit) | At(time: int)

  function Expiry(now: int, r: Request): int {
    if r.At? then r.time else AddTime(now, r.delay, r.unit)
  }

  // What a callback does: requests it makes, and whether it returns true.
  datatype Script = Script(requests: seq<Request>, keep: bool)

  /// The ordered set

  predicate Before(a: Entry, b: Entry) {
    a.key < b.key || (a.key == b.key && a.timer < b.timer)
  }

  // How many entries come before e.
  function Place(ts: seq<Entry>, e: Entry): (k: nat)
    ensures k <= |ts| && (forall i | 0 <= i < k :: Before(ts[i], e)) && (k < |ts| ==> !Before(ts[k], e))
  {
    if ts != [] && Before(ts[0], e) then 1 + Place(ts[1..], e) else 0
  }

  function Inserted(ts: seq<Entry>, e: Entry): seq<Entry> {
    ts[..Place(ts, e)] + [e] + ts[Place(ts, e)..]
  }

  // lower_bound of (now, nullptr): no pointer is below the null one.
  function LowerBound(ts: seq<Entry>, now: int): (k: nat)
    ensures k <= |ts| && (forall i | 0 <= i < k :: ts[i].key < now) && (k < |ts| ==> ts[k].key >= now)
  {
    if ts != [] && ts[0].key < now then 1 + LowerBound(ts[1..], now) else 0
  }

  /// The functions of TimerQueue

  const CLAMP := 100
  const MICROS := 1000000

  datatype TimerSpec = TimerSpec(seconds: int, nanoseconds: int)

  // it_value is split into seconds and nanoseconds.
  function Split(dif: int): TimerSpec {
    TimerSpec(dif / MICROS, dif % MICROS * 1000)
  }

  // When the kernel lets the descriptor expire.
  function Expires(now: int, spec: TimerSpec): int {
    now + spec.seconds * 1000000 + spec.nanoseconds / 1000
  }

  function Deadline(now: int, expiration: int): int {
    Expires(now, Split(if expiration - now < CLAMP then CLAMP else expiration - now))
  }

  function ResetTimerFd(s: State, timer: nat): State
    requires timer < |s.made|
  {
    s.(armed := Some(Deadline(s.now, s.made[timer].expiration)))
  }

  function Insert(s: State, timer: nat): State
    requires timer < |s.made|
  {
    var e := Entry(s.made[timer].expiration, timer);
    s.(timers := Inserted(s.timers, e), inserted := s.inserted + multiset{e})
  }

  predicate IsEarliest(s: State, timer: nat)
    requires timer < |s.made|
  {
    s.timers == [] || s.made[timer].expiration < s.timers[0].key
  }

  function AddTimer(s: State, expiration: int, interval: real, unit: TimeUnit): State {
    var t := |s.made|;
    var made := s.(made := s.made + [Timer(expiration, interval, interval > 0.0, unit)]);
    if IsEarliest(made, t) then ResetTimerFd(Insert(made, t), t) else Insert(made, t)
  }

  function Serve(s: State, r: Request): (t: State)
    ensures |t.made| >= |s.made| && t.now == s.now
  {
    match r
    case After(delay, unit) => AddTimer(s, Expiry(s.now, r), 0.0, unit)
    case Every(delay, unit) => AddTimer(s, Expiry(s.now, r), delay, unit)
    case At(time) => AddTimer(s, time, 0.0, SECONDS)
  }

  function ServeAll(s: State, rs: seq<Request>): (t: State)
    ensures |t.made| >= |s.made|
    decreases |rs|
  {
    if rs == [] then s else ServeAll(Serve(s, rs[0]), rs[1..])
  }

  // Timer::run
  function RunTimer(s: State, e: Entry, script: Script): (t: State)
    requires e.timer < |s.made|
    ensures |t.made| >= |s.made|
  {
    var t := ServeAll(s.(fired := s.fired + [Firing(e, s.now)]), script.requests);
    var timer := t.made[e.timer];
    if !script.keep || !(timer.interval > 0.0) then t.(made := t.made[e.timer := timer.(repeat := false)]) else t
  }

  predicate Made(s: State, active: seq<Entry>) {
    forall i | 0 <= i < |active| :: active[i].timer < |s.made|
  }

  function RunAll(s: State, active: seq<Entry>, scripts: seq<Script>): (t: State)
    requires Made(s, active) && |scripts| == |active|
    ensures |t.made| >= |s.made|
    decreases |active|
  {
    if active == [] then s else RunAll(RunTimer(s, active[0], scripts[0]), active[1..], scripts[1..])
  }

  function Restart(s: State, active: seq<Entry>): (t: State)
    requires Made(s, active)
    ensures |t.made| == |s.made|
    decreases |active|
  {
    if active == [] then s
    else
      var i := active[0].timer;
      var timer := s.made[i];
      var again := s.(made := s.made[i := timer.(expiration := AddTime(s.now, timer.interval, timer.unit))]);
      Restart(if timer.repeat then Insert(again, i) else s, active[1..])
  }

  function ResetTimers(s: State, active: seq<Entry>): State
    requires Made(s, active)
  {
    var t := Restart(s, active);
    if t.timers != [] && t.timers[0].timer < |t.made| then ResetTimerFd(t, t.timers[0].timer) else t
  }

  function Due(s: State): seq<Entry> {
    s.timers[..LowerBound(s.timers, s.now)]
  }

  function HandleRead(s: State, scripts: seq<Script>): State
    requires Made(s, Due(s)) && |scripts| == |Due(s)|
  {
    var active := Due(s);
    var t := s.(armed := None, timers := s.timers[|active|..]);
    ResetTimers(RunAll(t, active, scripts), active)
  }

  /// The class

  class TimerQueue {
    var now: int
    var made: seq<Timer>
    var timers: seq<Entry>
    var activeTimers: seq<Entry>
    var armed: Option<int>
    ghost var inserted: multiset<Entry>
    ghost var fired: seq<Firing>

    ghost function View(): State
      reads this
    {
      State(now, made, timers, armed, inserted, fired)
    }

    constructor (start: int)
      ensures View() == Initial(start) && activeTimers == []
    {
      now, made, timers, activeTimers, armed, inserted, fired := start, [], [], [], None, multiset{}, [];
    }

    method SetTimerFd(timer: nat)
      requires timer < |made|
      modifies this`armed
      ensures View() == ResetTimerFd(old(View()), timer)
    {
      var dif := made[timer].expiration - now;
      if dif < CLAMP { dif := CLAMP; }
      var seconds, nanoseconds := dif / MICROS, dif % MICROS * 1000;
      armed := Some(Expires(now, TimerSpec(seconds, nanoseconds)));
    }

    method InsertTimer(timer: nat) returns (resetInstantly: bool)
      requires timer < |made|
      modifies this`timers, this`inserted
      ensures View() == Insert(old(View()), timer) && resetInstantly == IsEarliest(old(View()), timer)
    {
      resetInstantly := false;
      if timers == [] || made[timer].expiration < timers[0].key { resetInstantly := true; }
      var e := Entry(made[timer].expiration, timer);
      timers := Inserted(timers, e);
      inserted := inserted + multiset{e};
    }

    method Add(expiration: int, interval: real, unit: TimeUnit) returns (timer: nat)
      modifies this`made, this`timers, this`armed, this`inserted
      ensures View() == AddTimer(old(View()), expiration, interval, unit) && timer == old(|made|)
    {
      timer := |made|;
      made := made + [Timer(expiration, interval, interval > 0.0, unit)];
      var earliest := InsertTimer(timer);
      if earliest { SetTimerFd(timer); }
    }

    method ServeOne(r: Request)
      modifies this`made, this`timers, this`armed, this`inserted
      ensures View() == Serve(old(View()), r)
    {
      match r {
        case After(delay, unit) => var _ := Add(AddTime(now, delay, unit), 0.0, unit);
        case Every(delay, unit) => var _ := Add(AddTime(now, delay, unit), delay, unit);
        case At(time) => var _ := Add(time, 0.0, SECONDS);
      }
    }

    // The callback makes its requests; then Timer::run looks at its result.
    method Run(e: Entry, script: Script)
      requires e.timer < |made|
      modifies this`made, this`timers, this`armed, this`inserted, this`fired
      ensures View() == RunTimer(old(View()), e, script)
    {
      hide Serve;
      fired := fired + [Firing(e, now)];
      var i := 0;
      assert script.requests[0..] == script.requests;
      while i < |script.requests|
        invariant i <= |script.requests| && e.timer < |made| && now == old(now)
        invariant ServeAll(View(), script.requests[i..]) ==
                  ServeAll(old(View()).(fired := old(fired) + [Firing(e, now)]), script.requests)
      {
        assert script.requests[i..][1..] == script.requests[i + 1..];
        ServeOne(script.requests[i]);
        i := i + 1;
      }
      if !script.keep || !(made[e.timer].interval > 0.0) {
        made := made[e.timer := made[e.timer].(repeat := false)];
      }
    }

    method Reset()
      requires Made(View(), activeTimers)
      modifies this
      ensures View() == ResetTimers(old(View()), old(activeTimers)) && activeTimers == []
    {
      var i := 0;
      assert activeTimers[0..] == activeTimers;
      while i < |activeTimers|
        invariant i <= |activeTimers| && activeTimers == old(activeTimers) && Made(View(), activeTimers) && now == old(now)
        invariant Made(View(), activeTimers[i..])
        invariant Restart(View(), activeTimers[i..]) == Restart(old(View()), activeTimers)
      {
        assert activeTimers[i..][1..] == activeTimers[i + 1..];
        var t := activeTimers[i].timer;
        if made[t].repeat {
          made := made[t := made[t].(expiration := AddTime(now, made[t].interval, made[t].unit))];
          var _ := InsertTimer(t);
        }
        i := i + 1;
      }
      activeTimers := [];
      if timers != [] && timers[0].timer < |made| { SetTimerFd(timers[0].timer); }
    }

    // The callbacks' doings are given; the descriptor has just expired.
    method Handle(scripts: seq<Script>)
      requires Made(View(), Due(View())) && |scripts| == |Due(View())|
      modifies this
      ensures View() == HandleRead(old(View()), scripts) && activeTimers == []
    {
      hide RunTimer, ResetTimers;
      armed := None;
      var end := LowerBound(timers, now);
      activeTimers := timers[..end];
      timers := timers[end..];
      ghost var begin := View();
      var i := 0;
      assert activeTimers[0..] == activeTimers && scripts[0..] == scripts;
      while i < |activeTimers|
        invariant i <= |activeTimers| && activeTimers == old(Due(View())) && now == old(now)
        invariant Made(View(), activeTimers) && Made(View(), activeTimers[i..])
        invariant RunAll(View(), activeTimers[i..], scripts[i..]) == RunAll(begin, activeTimers, scripts)
      {
        assert activeTimers[i..][1..] == activeTimers[i + 1..] && scripts[i..][1..] == scripts[i + 1..];
        Run(activeTimers[i], scripts[i]);
        i := i + 1;
      }
      Reset();
    }
  }
}
