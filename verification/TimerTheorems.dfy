/** How late a timer can be. */
module TimerTheorems {
  import opened Wrappers
  import opened TimerQueues

  predicate Sorted(ts: seq<Entry>) {
    forall i, j | 0 <= i < j < |ts| :: Before(ts[i], ts[j])
  }

  // The key in the set is the expiration of its timer.
  predicate Keys(s: State) {
    forall i | 0 <= i < |s.timers| ::
      s.timers[i].timer < |s.made| && s.made[s.timers[i].timer].expiration == s.timers[i].key
  }

  predicate Distinct(ts: seq<Entry>) {
    forall i, j | 0 <= i < j < |ts| :: ts[i].timer != ts[j].timer
  }

  predicate Repeats(s: State) {
    forall t | 0 <= t < |s.made| && s.made[t].repeat :: s.made[t].interval > 0.0
  }

  predicate Queue(s: State) {
    Sorted(s.timers) && Keys(s) && Distinct(s.timers) && Repeats(s)
  }

  function FiredEntries(fired: seq<Firing>): seq<Entry> {
    seq(|fired|, i requires 0 <= i < |fired| => fired[i].entry)
  }

  // Every entry ever inserted is still pending, has fired, or is about to.
  predicate Conserved(s: State, rest: seq<Entry>) {
    s.inserted == multiset(s.timers) + multiset(FiredEntries(s.fired)) + multiset(rest)
  }

  // After its expiration and at most 100 microseconds after it.
  predicate InTime(key: int, at: int) {
    key < at <= key + 100
  }

  predicate Punctual(s: State) {
    forall i | 0 <= i < |s.fired| :: InTime(s.fired[i].entry.key, s.fired[i].at)
  }

  // The descriptor is armed, not yet due, and not too late for the earliest timer.
  predicate Armed(s: State) {
    s.timers != [] ==> s.armed.Some? && s.now <= s.armed.value && s.timers[0].key <= s.armed.value <= s.timers[0].key + 100
  }

  predicate Inv(s: State) {
    Queue(s) && Conserved(s, []) && Punctual(s) && Armed(s)
  }

  /// Insertion

  lemma InsertedSorted(ts: seq<Entry>, e: Entry)
    requires Sorted(ts) && forall i | 0 <= i < |ts| :: ts[i].timer != e.timer
    ensures Sorted(Inserted(ts, e))
  {
  }

  lemma InsertedSame(ts: seq<Entry>, e: Entry)
    ensures multiset(Inserted(ts, e)) == multiset(ts) + multiset{e}
    ensures forall x :: x in Inserted(ts, e) <==> x == e || x in ts
  {
    hide Before;
    var k := Place(ts, e);
    var a, b := ts[..k], ts[k..];
    assert ts == a + b;
    assert multiset(a + [e] + b) == multiset(a + b) + multiset{e};
    assert forall x :: x in Inserted(ts, e) <==> x in multiset(Inserted(ts, e));
    assert forall x :: x in ts <==> x in multiset(ts);
  }

  lemma InsertedDistinct(ts: seq<Entry>, e: Entry)
    requires Distinct(ts) && forall i | 0 <= i < |ts| :: ts[i].timer != e.timer
    ensures Distinct(Inserted(ts, e))
  {
  }

  lemma InsertKeeps(s: State, t: nat, rest: seq<Entry>)
    requires Queue(s) && Conserved(s, rest) && t < |s.made| && forall i | 0 <= i < |s.timers| :: s.timers[i].timer != t
    ensures Queue(Insert(s, t)) && Conserved(Insert(s, t), rest)
  {
    var e := Entry(s.made[t].expiration, t);
    InsertedSorted(s.timers, e);
    InsertedDistinct(s.timers, e);
    InsertedSame(s.timers, e);
    hide Place, Sorted, Before, Distinct;
    var u := Insert(s, t);
    forall i | 0 <= i < |u.timers|
      ensures u.timers[i].timer < |u.made| && u.made[u.timers[i].timer].expiration == u.timers[i].key
    {
      assert u.timers[i] in u.timers;
    }
  }

  // The earliest entry after an insertion.
  lemma InsertedHead(s: State, t: nat)
    requires t < |s.made|
    ensures var ts := Insert(s, t).timers;
      ts != [] && ts[0].key == if IsEarliest(s, t) then s.made[t].expiration else s.timers[0].key
  {
  }

  // The kernel accepts the value, and it does not disarm.
  lemma SplitIsValid(dif: int)
    requires dif >= 100
    ensures var spec := Split(dif);
      && 0 <= spec.seconds && 0 <= spec.nanoseconds < 1000000000 && (spec.seconds > 0 || spec.nanoseconds > 0)
      && spec.seconds * 1000000000 + spec.nanoseconds == dif * 1000
  {
  }

  lemma DeadlineIs(now: int, expiration: int)
    ensures Deadline(now, expiration) == if expiration - now < 100 then now + 100 else expiration
  {
  }

  /// A request

  predicate NoneIs(ts: seq<Entry>, t: nat) {
    forall i | 0 <= i < |ts| :: ts[i].timer != t
  }

  function WithTimer(s: State, expiration: int, interval: real, unit: TimeUnit): State {
    s.(made := s.made + [Timer(expiration, interval, interval > 0.0, unit)])
  }

  lemma MadeKeeps(s: State, expiration: int, interval: real, unit: TimeUnit, rest: seq<Entry>)
    requires Queue(s) && Conserved(s, rest)
    ensures Queue(WithTimer(s, expiration, interval, unit)) && Conserved(WithTimer(s, expiration, interval, unit), rest)
    ensures NoneIs(s.timers, |s.made|)
  {
  }

  lemma ArmingKeeps(s: State, armed: Option<int>, rest: seq<Entry>)
    requires Queue(s) && Conserved(s, rest)
    ensures Queue(s.(armed := armed)) && Conserved(s.(armed := armed), rest)
  {
  }

  lemma AddKeepsQueue(s: State, expiration: int, interval: real, unit: TimeUnit, rest: seq<Entry>)
    requires Queue(s) && Conserved(s, rest)
    ensures var u := AddTimer(s, expiration, interval, unit);
      && Queue(u) && Conserved(u, rest) && u.timers != []
      && u.timers[0].key == (if s.timers == [] || expiration < s.timers[0].key then expiration else s.timers[0].key)
      && u.armed == (if s.timers == [] || expiration < s.timers[0].key then Some(Deadline(s.now, expiration)) else s.armed)
      && u.now == s.now && u.fired == s.fired
  {
    var t, m := |s.made|, WithTimer(s, expiration, interval, unit);
    MadeKeeps(s, expiration, interval, unit, rest);
    InsertKeeps(m, t, rest);
    InsertedHead(m, t);
    ArmingKeeps(Insert(m, t), Some(Deadline(s.now, expiration)), rest);
    hide Inserted, Queue, Conserved, Deadline;
  }

  function Interval(r: Request): real {
    if r.Every? then r.delay else 0.0
  }

  function Unit(r: Request): TimeUnit {
    if r.At? then SECONDS else r.unit
  }

  // A request makes one timer, which repeats exactly when it is RunEvery with a
  // positive delay, and puts it into the set.
  lemma RequestMakes(s: State, r: Request)
    ensures var u := Serve(s, r);
      && |u.made| == |s.made| + 1 && u.made[..|s.made|] == s.made && u.fired == s.fired
      && u.inserted == s.inserted + multiset{Entry(u.made[|s.made|].expiration, |s.made|)}
      && match r
         case After(delay, unit) => u.made[|s.made|].expiration == AddTime(s.now, delay, unit) && !u.made[|s.made|].repeat
         case Every(delay, unit) =>
           && u.made[|s.made|].expiration == AddTime(s.now, delay, unit)
           && (u.made[|s.made|].repeat <==> delay > 0.0) && u.made[|s.made|].interval == delay && u.made[|s.made|].unit == unit
         case At(time) => u.made[|s.made|].expiration == time && !u.made[|s.made|].repeat
  {
    hide AddTime, Deadline, Inserted;
  }

  lemma ServeIsAdd(s: State, r: Request)
    ensures Serve(s, r) == AddTimer(s, Expiry(s.now, r), Interval(r), Unit(r))
  {
  }

  // Delays that are not negative never ask for the past.
  // How long each unit is, and that only whole microseconds count.
  lemma UnitsAre(t: int, x: real)
    ensures AddTime(t, x, MILLISECONDS) == AddTime(t, x * 1000.0, MICROSECONDS)
    ensures AddTime(t, x, SECONDS) == AddTime(t, x * 1000000.0, MICROSECONDS)
    ensures AddTime(t, x, MINUTES) == AddTime(t, x * 60000000.0, MICROSECONDS)
    ensures AddTime(t, x, HOURS) == AddTime(t, x * 3600000000.0, MICROSECONDS)
  {
  }

  lemma WholeMicroseconds(t: int, k: int, x: real)
    requires if x >= 0.0 then k as real <= x < (k + 1) as real else (k - 1) as real < x <= k as real
    ensures AddTime(t, x, MICROSECONDS) == t + k
  {
    if x >= 0.0 {
      assert x.Floor == k;
    } else {
      assert (-x).Floor == -k;
    }
  }

  lemma WholeCounts(t: int, k: int)
    ensures AddTime(t, k as real, MICROSECONDS) == t + k
    ensures AddTime(t, k as real, MILLISECONDS) == t + k * 1000
    ensures AddTime(t, k as real, SECONDS) == t + k * 1000000
    ensures AddTime(t, k as real, MINUTES) == t + k * 60000000
    ensures AddTime(t, k as real, HOURS) == t + k * 3600000000
  {
    hide AddTime;
    UnitsAre(t, k as real);
    WholeMicroseconds(t, k, k as real);
    WholeMicroseconds(t, k * 1000, k as real * 1000.0);
    WholeMicroseconds(t, k * 1000000, k as real * 1000000.0);
    WholeMicroseconds(t, k * 60000000, k as real * 60000000.0);
    WholeMicroseconds(t, k * 3600000000, k as real * 3600000000.0);
  }

  lemma DelaysAreFuture(now: int, r: Request)
    requires !r.At? && r.delay >= 0.0
    ensures Expiry(now, r) >= now
  {
  }

  // A request is served in time unless it asks for the past before everything else.
  predicate Timely(s: State, r: Request) {
    Expiry(s.now, r) >= s.now || (s.timers != [] && Expiry(s.now, r) >= s.timers[0].key)
  }

  // What arming the descriptor, or not, does to the window.
  lemma WindowExactly(now: int, expiration: int, timers: seq<Entry>, s: State, u: State)
    requires s.timers == timers && s.now == now && Armed(s) && u.timers != [] && u.now == now
    requires u.timers[0].key == if timers == [] || expiration < timers[0].key then expiration else timers[0].key
    requires u.armed == if timers == [] || expiration < timers[0].key then Some(Deadline(now, expiration)) else s.armed
    ensures Armed(u) <==> expiration >= now || (timers != [] && expiration >= timers[0].key)
  {
  }

  lemma RequestKeepsExactly(s: State, r: Request)
    requires Inv(s)
    ensures Inv(Serve(s, r)) <==> Timely(s, r)
  {
    ServeIsAdd(s, r);
    AddKeepsQueue(s, Expiry(s.now, r), Interval(r), Unit(r), []);
    WindowExactly(s.now, Expiry(s.now, r), s.timers, s, Serve(s, r));
    hide AddTimer, Serve, Expiry, Queue, Conserved, Deadline, Interval, Unit, Armed;
  }

  /// Inside HandleRead

  // Timers being fired are not in the set.
  predicate Apart(s: State, active: seq<Entry>) {
    Distinct(active) && Made(s, active) && forall i | 0 <= i < |active| :: NoneIs(s.timers, active[i].timer)
  }

  predicate FromNow(s: State) {
    forall i | 0 <= i < |s.timers| :: s.timers[i].key >= s.now
  }

  predicate Handling(s: State, active: seq<Entry>, rest: seq<Entry>) {
    Queue(s) && Apart(s, active) && FromNow(s) && Conserved(s, rest) && Punctual(s)
  }

  predicate AllFuture(now: int, rs: seq<Request>) {
    forall i | 0 <= i < |rs| :: Expiry(now, rs[i]) >= now
  }

  lemma AddedApart(s: State, expiration: int, interval: real, unit: TimeUnit, active: seq<Entry>)
    requires Queue(s) && Apart(s, active) && FromNow(s) && expiration >= s.now
    ensures Apart(AddTimer(s, expiration, interval, unit), active) && FromNow(AddTimer(s, expiration, interval, unit))
  {
    var u := AddTimer(s, expiration, interval, unit);
    var e := Entry(expiration, |s.made|);
    InsertedSame(s.timers, e);
    hide Place, Sorted, Before, Distinct, Inserted;
    forall i | 0 <= i < |u.timers| ensures u.timers[i].key >= u.now { assert u.timers[i] in u.timers; }
    forall i | 0 <= i < |active| ensures NoneIs(u.timers, active[i].timer) {
      forall j | 0 <= j < |u.timers| ensures u.timers[j].timer != active[i].timer { assert u.timers[j] in u.timers; }
    }
  }

  lemma ServeHandling(s: State, r: Request, active: seq<Entry>, rest: seq<Entry>)
    requires Handling(s, active, rest) && Expiry(s.now, r) >= s.now
    ensures Handling(Serve(s, r), active, rest)
  {
    ServeIsAdd(s, r);
    AddKeepsQueue(s, Expiry(s.now, r), Interval(r), Unit(r), rest);
    AddedApart(s, Expiry(s.now, r), Interval(r), Unit(r), active);
    hide AddTimer, Serve, Expiry, Queue, Conserved, Apart, FromNow;
  }

  lemma {:induction false} ServeAllHandling(s: State, rs: seq<Request>, active: seq<Entry>, rest: seq<Entry>)
    requires Handling(s, active, rest) && AllFuture(s.now, rs)
    ensures Handling(ServeAll(s, rs), active, rest) && ServeAll(s, rs).now == s.now
    decreases |rs|
  {
    hide Handling, Serve, Expiry;
    if rs == [] {
    } else {
      ServeHandling(s, rs[0], active, rest);
      ServeAllHandling(Serve(s, rs[0]), rs[1..], active, rest);
    }
  }

  lemma FiredOneMore(fired: seq<Firing>, f: Firing)
    ensures FiredEntries(fired + [f]) == FiredEntries(fired) + [f.entry]
  {
  }

  lemma FiringHandling(s: State, e: Entry, active: seq<Entry>, rest: seq<Entry>)
    requires Handling(s, active, [e] + rest) && InTime(e.key, s.now)
    ensures Handling(s.(fired := s.fired + [Firing(e, s.now)]), active, rest)
  {
    hide Sorted, Distinct, FiredEntries;
    var before := FiredEntries(s.fired);
    FiredOneMore(s.fired, Firing(e, s.now));
    assert multiset(before + [e]) == multiset(before) + multiset([e]);
    assert multiset([e] + rest) == multiset([e]) + multiset(rest);
  }

  lemma StopHandling(s: State, t: nat, active: seq<Entry>, rest: seq<Entry>)
    requires Handling(s, active, rest) && t < |s.made|
    ensures Handling(s.(made := s.made[t := s.made[t].(repeat := false)]), active, rest)
  {
  }

  lemma RunTimerHandling(s: State, e: Entry, script: Script, active: seq<Entry>, rest: seq<Entry>)
    requires Handling(s, active, [e] + rest) && InTime(e.key, s.now) && e.timer < |s.made| && AllFuture(s.now, script.requests)
    ensures Handling(RunTimer(s, e, script), active, rest) && RunTimer(s, e, script).now == s.now
  {
    hide Handling, InTime, ServeAll, AllFuture;
    FiringHandling(s, e, active, rest);
    var f := s.(fired := s.fired + [Firing(e, s.now)]);
    ServeAllHandling(f, script.requests, active, rest);
    StopHandling(ServeAll(f, script.requests), e.timer, active, rest);
  }

  predicate ScriptsFuture(now: int, scripts: seq<Script>) {
    forall i | 0 <= i < |scripts| :: AllFuture(now, scripts[i].requests)
  }

  predicate AllInTime(active: seq<Entry>, now: int) {
    forall i | 0 <= i < |active| :: InTime(active[i].key, now)
  }

  lemma {:induction false} RunAllHandling(s: State, todo: seq<Entry>, scripts: seq<Script>, active: seq<Entry>)
    requires Handling(s, active, todo) && Made(s, todo) && |scripts| == |todo|
    requires AllInTime(todo, s.now) && ScriptsFuture(s.now, scripts)
    ensures Handling(RunAll(s, todo, scripts), active, []) && RunAll(s, todo, scripts).now == s.now
    decreases |todo|
  {
    hide Handling, InTime, RunTimer, AllFuture;
    if todo == [] {
    } else {
      assert todo == [todo[0]] + todo[1..];
      RunTimerHandling(s, todo[0], scripts[0], active, todo[1..]);
      RunAllHandling(RunTimer(s, todo[0], scripts[0]), todo[1..], scripts[1..], active);
    }
  }

  /// ResetTimers

  function Again(s: State, t: nat): State
    requires t < |s.made|
  {
    s.(made := s.made[t := s.made[t].(expiration := AddTime(s.now, s.made[t].interval, s.made[t].unit))])
  }

  lemma RestartOne(s: State, active: seq<Entry>)
    requires active != [] && Handling(s, active, []) && s.made[active[0].timer].repeat
    ensures Handling(Insert(Again(s, active[0].timer), active[0].timer), active[1..], [])
  {
    var t := active[0].timer;
    var a := Again(s, t);
    assert NoneIs(s.timers, t);
    assert Queue(a) && Conserved(a, []) by { hide Sorted, Distinct, Before; }
    InsertKeeps(a, t, []);
    var u := Insert(a, t);
    InsertedSame(a.timers, Entry(a.made[t].expiration, t));
    hide Place, Sorted, Before, Inserted, Queue, Conserved, FiredEntries;
    forall i | 0 <= i < |u.timers| ensures u.timers[i].key >= u.now { assert u.timers[i] in u.timers; }
    forall i | 0 <= i < |active[1..]| ensures NoneIs(u.timers, active[1..][i].timer) {
      assert active[1..][i] == active[i + 1] && NoneIs(s.timers, active[i + 1].timer);
      forall j | 0 <= j < |u.timers| ensures u.timers[j].timer != active[i + 1].timer { assert u.timers[j] in u.timers; }
    }
  }

  lemma SkipOne(s: State, active: seq<Entry>)
    requires active != [] && Handling(s, active, [])
    ensures Handling(s, active[1..], [])
  {
  }

  lemma {:induction false} RestartHandling(s: State, active: seq<Entry>)
    requires Made(s, active) && Handling(s, active, [])
    ensures Handling(Restart(s, active), [], []) && Restart(s, active).now == s.now
    decreases |active|
  {
    hide Handling;
    if active == [] {
    } else {
      if s.made[active[0].timer].repeat {
        RestartOne(s, active);
        RestartHandling(Insert(Again(s, active[0].timer), active[0].timer), active[1..]);
      } else {
        SkipOne(s, active);
        RestartHandling(s, active[1..]);
      }
    }
  }

  lemma ResetArms(s: State, active: seq<Entry>)
    requires Made(s, active) && Handling(s, active, [])
    ensures Inv(ResetTimers(s, active)) && ResetTimers(s, active).now == s.now
  {
    RestartHandling(s, active);
    hide Restart, Sorted, Distinct, Repeats, FiredEntries, Deadline;
    var t := Restart(s, active);
    if t.timers != [] { DeadlineIs(t.now, t.timers[0].key); }
  }

  /// HandleRead

  lemma DueInTime(s: State)
    requires Inv(s) && s.armed == Some(s.now)
    ensures AllInTime(Due(s), s.now) && Made(s, Due(s))
    ensures forall i | |Due(s)| <= i < |s.timers| :: s.timers[i].key >= s.now
  {
  }

  lemma DropKeepsQueue(s: State, k: nat)
    requires Queue(s) && k <= |s.timers|
    ensures Queue(s.(armed := None, timers := s.timers[k..]))
  {
  }

  lemma TakeIsApart(s: State, k: nat)
    requires Queue(s) && k <= |s.timers|
    ensures Apart(s.(armed := None, timers := s.timers[k..]), s.timers[..k])
  {
  }

  lemma TakenOut(s: State, k: nat)
    requires Queue(s) && Conserved(s, []) && Punctual(s) && k <= |s.timers|
    requires forall i | k <= i < |s.timers| :: s.timers[i].key >= s.now
    ensures Handling(s.(armed := None, timers := s.timers[k..]), s.timers[..k], s.timers[..k])
  {
    DropKeepsQueue(s, k);
    TakeIsApart(s, k);
    hide FiredEntries, Queue, Apart;
    assert s.timers == s.timers[..k] + s.timers[k..];
  }

  lemma HandleReadKeeps(s: State, scripts: seq<Script>)
    requires Inv(s) && s.armed == Some(s.now) && Made(s, Due(s)) && |scripts| == |Due(s)| && ScriptsFuture(s.now, scripts)
    ensures Inv(HandleRead(s, scripts)) && HandleRead(s, scripts).now == s.now
  {
    DueInTime(s);
    var active := Due(s);
    TakenOut(s, |active|);
    hide Handling, InTime, RunAll, ResetTimers, ScriptsFuture, Queue, Conserved, Punctual, Armed;
    var t := s.(armed := None, timers := s.timers[|active|..]);
    RunAllHandling(t, active, scripts, active);
    ResetArms(RunAll(t, active, scripts), active);
  }

  /// Runs

  datatype Step = Request(r: Request) | Tick(to: int) | Fire(scripts: seq<Script>)

  // The handler runs at the instant the descriptor expires: time waits for it.
  predicate Enabled(s: State, step: Step) {
    match step
    case Request(_) => true
    case Tick(to) => s.now <= to && (s.armed.Some? ==> to <= s.armed.value)
    case Fire(scripts) => s.armed == Some(s.now) && Made(s, Due(s)) && |scripts| == |Due(s)|
  }

  function Next(s: State, step: Step): State {
    match step
    case Request(r) => Serve(s, r)
    case Tick(to) => s.(now := to)
    case Fire(scripts) => if Made(s, Due(s)) && |scripts| == |Due(s)| then HandleRead(s, scripts) else s
  }

  predicate StepTimely(s: State, step: Step) {
    match step
    case Request(r) => Timely(s, r)
    case Tick(_) => true
    case Fire(scripts) => ScriptsFuture(s.now, scripts)
  }

  predicate Legal(s: State, run: seq<Step>)
    decreases |run|
  {
    run == [] || (Enabled(s, run[0]) && Legal(Next(s, run[0]), run[1..]))
  }

  predicate AllTimely(s: State, run: seq<Step>)
    decreases |run|
  {
    run == [] || (StepTimely(s, run[0]) && AllTimely(Next(s, run[0]), run[1..]))
  }

  function Final(s: State, run: seq<Step>): State
    decreases |run|
  {
    if run == [] then s else Final(Next(s, run[0]), run[1..])
  }

  lemma TickKeeps(s: State, to: int)
    requires Inv(s) && Enabled(s, Tick(to))
    ensures Inv(Next(s, Tick(to)))
  {
  }

  lemma StepKeeps(s: State, step: Step)
    requires Inv(s) && Enabled(s, step) && StepTimely(s, step)
    ensures Inv(Next(s, step))
  {
    hide Inv, Serve, HandleRead, Timely, ScriptsFuture;
    match step {
      case Request(r) => RequestKeepsExactly(s, r);
      case Tick(to) => TickKeeps(s, to);
      case Fire(scripts) => HandleReadKeeps(s, scripts);
    }
  }

  lemma {:induction false} RunKeeps(s: State, run: seq<Step>)
    requires Inv(s) && Legal(s, run) && AllTimely(s, run)
    ensures Inv(Final(s, run))
    decreases |run|
  {
    hide Inv, Enabled, Next, StepTimely;
    if run == [] {
    } else {
      StepKeeps(s, run[0]);
      RunKeeps(Next(s, run[0]), run[1..]);
    }
  }

  // Every callback ran after its timer's expiration and at most 100 microseconds after it.
  lemma NeverLate(start: int, run: seq<Step>)
    requires Legal(Initial(start), run) && AllTimely(Initial(start), run)
    ensures Punctual(Final(Initial(start), run))
  {
    RunKeeps(Initial(start), run);
  }

  lemma NotOverdue(s: State)
    requires Inv(s)
    ensures forall e | e in s.timers :: s.now <= e.key + 100
  {
  }

  // Whatever was inserted has fired by 100 microseconds after its expiration.
  lemma NoStarvation(start: int, run: seq<Step>, e: Entry)
    requires Legal(Initial(start), run) && AllTimely(Initial(start), run)
    ensures var s := Final(Initial(start), run);
      s.now > e.key + 100 ==> s.inserted[e] == multiset(FiredEntries(s.fired))[e]
  {
    RunKeeps(Initial(start), run);
    var s := Final(Initial(start), run);
    hide Final, Legal, AllTimely, FiredEntries, Queue, Punctual, Armed;
    NotOverdue(s);
    assert s.now > e.key + 100 ==> multiset(s.timers)[e] == 0;
  }

  // Nothing fires twice or is dropped, and a non-empty set is armed at
  // or after its earliest expiration, at most 100 microseconds after it.
  lemma ArmedAndConserved(start: int, run: seq<Step>)
    requires Legal(Initial(start), run) && AllTimely(Initial(start), run)
    ensures var s := Final(Initial(start), run); Conserved(s, []) && Armed(s) && Keys(s)
  {
    RunKeeps(Initial(start), run);
  }

  // Handling the descriptor never leaves it due: time can go on.
  lemma HandlingMovesOn(s: State, scripts: seq<Script>)
    requires Inv(s) && Enabled(s, Fire(scripts)) && ScriptsFuture(s.now, scripts)
    ensures var t := Next(s, Fire(scripts)); t.timers != [] ==> t.armed.Some? && t.armed.value >= s.now + 100
  {
    DueInTime(s);
    var active := Due(s);
    TakenOut(s, |active|);
    hide Handling, InTime, RunAll, ScriptsFuture, Inv;
    var r := RunAll(s.(armed := None, timers := s.timers[|active|..]), active, scripts);
    RunAllHandling(s.(armed := None, timers := s.timers[|active|..]), active, scripts, active);
    RestartHandling(r, active);
    var t := Restart(r, active);
    HeadIsMade(t);
    if t.timers != [] { DeadlineIs(t.now, t.made[t.timers[0].timer].expiration); }
  }

  lemma HeadIsMade(s: State)
    requires Handling(s, [], [])
    ensures s.timers != [] ==> s.timers[0].timer < |s.made|
  {
  }

  /// Which fired timers come back

  lemma {:induction false} RequestsLeaveTimers(s: State, rs: seq<Request>, t: nat)
    requires t < |s.made|
    ensures ServeAll(s, rs).made[t] == s.made[t]
    decreases |rs|
  {
    if rs == [] {
    } else {
      RequestsLeaveTimers(Serve(s, rs[0]), rs[1..], t);
    }
  }

  lemma RunTimerOn(s: State, e: Entry, script: Script, t: nat)
    requires t < |s.made| && e.timer < |s.made|
    ensures RunTimer(s, e, script).made[t] ==
      if t == e.timer && (!script.keep || !(s.made[t].interval > 0.0)) then s.made[t].(repeat := false) else s.made[t]
  {
    RequestsLeaveTimers(s.(fired := s.fired + [Firing(e, s.now)]), script.requests, t);
    RequestsLeaveTimers(s.(fired := s.fired + [Firing(e, s.now)]), script.requests, e.timer);
    hide ServeAll;
  }

  lemma {:induction false} OthersRun(s: State, active: seq<Entry>, scripts: seq<Script>, t: nat)
    requires Made(s, active) && |scripts| == |active| && t < |s.made| && NoneIs(active, t)
    ensures RunAll(s, active, scripts).made[t] == s.made[t]
    decreases |active|
  {
    hide RunTimer;
    if active == [] {
    } else {
      RunTimerOn(s, active[0], scripts[0], t);
      OthersRun(RunTimer(s, active[0], scripts[0]), active[1..], scripts[1..], t);
    }
  }

  lemma {:induction false} RunAllOn(s: State, active: seq<Entry>, scripts: seq<Script>, i: nat)
    requires Made(s, active) && |scripts| == |active| && i < |active| && Distinct(active)
    requires s.made[active[i].timer].repeat ==> s.made[active[i].timer].interval > 0.0
    ensures var t := active[i].timer;
      RunAll(s, active, scripts).made[t] == s.made[t].(repeat := s.made[t].repeat && scripts[i].keep)
    decreases |active|
  {
    hide RunTimer;
    var t := active[i].timer;
    RunTimerOn(s, active[0], scripts[0], t);
    if i == 0 {
      OthersRun(RunTimer(s, active[0], scripts[0]), active[1..], scripts[1..], t);
    } else {
      RunAllOn(RunTimer(s, active[0], scripts[0]), active[1..], scripts[1..], i - 1);
    }
  }

  lemma {:induction false} RestartGrows(s: State, active: seq<Entry>, e: Entry)
    requires Made(s, active) && e in s.timers
    ensures e in Restart(s, active).timers
    decreases |active|
  {
    hide Place;
    if active == [] {
    } else {
      var t := active[0].timer;
      if s.made[t].repeat {
        InsertedSame(s.timers, Entry(Again(s, t).made[t].expiration, t));
        RestartGrows(Insert(Again(s, t), t), active[1..], e);
      } else {
        RestartGrows(s, active[1..], e);
      }
    }
  }

  lemma {:induction false} RestartAddsNo(s: State, active: seq<Entry>, t: nat)
    requires Made(s, active) && NoneIs(active, t) && forall e | e in s.timers :: e.timer != t
    ensures forall e | e in Restart(s, active).timers :: e.timer != t
    decreases |active|
  {
    hide Place, Inserted;
    if active == [] {
    } else {
      var u := active[0].timer;
      if s.made[u].repeat {
        InsertedSame(s.timers, Entry(Again(s, u).made[u].expiration, u));
        RestartAddsNo(Insert(Again(s, u), u), active[1..], t);
      } else {
        RestartAddsNo(s, active[1..], t);
      }
    }
  }

  lemma {:induction false} RestartOn(s: State, active: seq<Entry>, i: nat)
    requires Made(s, active) && i < |active| && Distinct(active) && forall e | e in s.timers :: e.timer != active[i].timer
    ensures var t := active[i].timer; var timer := s.made[t];
      if timer.repeat then Entry(AddTime(s.now, timer.interval, timer.unit), t) in Restart(s, active).timers
      else forall e | e in Restart(s, active).timers :: e.timer != t
    decreases |active|
  {
    hide Place, Inserted, AddTime;
    var u := active[0].timer;
    var again := if s.made[u].repeat then Insert(Again(s, u), u) else s;
    InsertedSame(s.timers, Entry(Again(s, u).made[u].expiration, u));
    if i > 0 {
      RestartOn(again, active[1..], i - 1);
    } else if s.made[u].repeat {
      RestartGrows(again, active[1..], Entry(AddTime(s.now, s.made[u].interval, s.made[u].unit), u));
    } else {
      RestartAddsNo(s, active[1..], u);
    }
  }

  // A fired timer is inserted again, one interval from now, exactly when it
  // repeats and its callback says so.
  lemma FiredTimerComesBack(s: State, scripts: seq<Script>, i: nat)
    requires Inv(s) && Enabled(s, Fire(scripts)) && ScriptsFuture(s.now, scripts) && i < |Due(s)|
    ensures var t := Due(s)[i].timer; var timer := s.made[t]; var after := Next(s, Fire(scripts)).timers;
      if timer.repeat && scripts[i].keep then Entry(AddTime(s.now, timer.interval, timer.unit), t) in after
      else forall e | e in after :: e.timer != t
  {
    DueInTime(s);
    var active := Due(s);
    TakenOut(s, |active|);
    var h := s.(armed := None, timers := s.timers[|active|..]);
    RunAllHandling(h, active, scripts, active);
    assert Distinct(active) && Repeats(h);
    RunAllOn(h, active, scripts, i);
    var r := RunAll(h, active, scripts);
    ApartMembers(r, active, i);
    hide Handling, InTime, RunAll, ScriptsFuture, Inv, AddTime, Distinct, Restart;
    RestartOn(r, active, i);
  }

  lemma ApartMembers(s: State, active: seq<Entry>, i: nat)
    requires Handling(s, active, []) && i < |active|
    ensures forall e | e in s.timers :: e.timer != active[i].timer
  {
  }
}
