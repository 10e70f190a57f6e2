/** src/HooLog/AsyncLogger.h: producers fill buffers under a lock, one writer
    thread swaps them out and writes them.  A pointer that was moved from is
    None, a buffer is its text. */
module AsyncLoggers {
  import opened Wrappers
  import opened LogStream
  import opened LogFiles

  const BUFFER_SIZE := 1024
  const FILE_MAXIMUM := 10485760

  type Buffer = Option<string>

  // Where the writer is: at the head of its loop, past its test, writing the
  // k-th buffer it swapped out, past the check of the file size, or gone.
  datatype Place = Head | Entered | Writing(k: nat) | Checked | Gone

  datatype State = State(
    current: Buffer, next: Buffer, buffers: seq<Buffer>,
    newCurrent: Buffer, newNext: Buffer, active: seq<Buffer>,
    place: Place, running: bool, file: Option<string>, rotated: seq<string>, writtenBytes: nat)

  datatype Step =
    | AppendCache(msg: string) | AppendNonCache(msg: string)
    | Enter | SwapBuffers | WriteNext(reached: nat) | CheckSize | Recycle | Stop | Leave

  function Initial(file: Option<string>): State {
    State(Some(""), Some(""), [], Some(""), Some(""), [], Head, true, file, [], |Text(file)|)
  }

  predicate Enabled(s: State, step: Step) {
    match step
    case AppendCache(_) => true
    case AppendNonCache(_) => true
    // The loop tests running_, and may be stopped before it takes the lock.
    case Enter => s.place == Head && s.running
    case SwapBuffers => s.place == Entered
    case WriteNext(n) => s.place.Writing? && s.place.k < |s.active| && n <= |Text(s.active[s.place.k])|
    case CheckSize => s.place.Writing? && s.place.k == |s.active|
    case Recycle => s.place == Checked
    case Stop => s.running
    case Leave => s.place == Head && !s.running
  }

  /// The steps

  function Append(b: Buffer, msg: string): Buffer {
    if b.Some? then Some(Appended(b.value, msg, BUFFER_SIZE)) else None
  }

  // The current buffer joins the full ones and is replaced.
  function PushCurrent(s: State): State {
    s.(buffers := s.buffers + [s.current],
       current := if s.next.Some? then s.next else Some(""),
       next := None)
  }

  predicate Room(b: Buffer, msg: string) {
    b.Some? && BUFFER_SIZE - |b.value| > |msg|
  }

  function Last(bs: seq<Buffer>): Buffer {
    if bs != [] && bs[|bs| - 1].Some? then Some("") else None
  }

  function Next(s: State, step: Step): State {
    match step
    case AppendCache(msg) =>
      var t := if Room(s.current, msg) then s else PushCurrent(s);
      t.(current := Append(t.current, msg))
    case AppendNonCache(msg) => PushCurrent(s.(current := Append(s.current, msg)))
    case Enter => s.(place := Entered)
    case SwapBuffers =>
      s.(active := s.buffers + [s.current], buffers := s.active,
         current := s.newCurrent, newCurrent := None,
         next := if s.next.None? then s.newNext else s.next,
         newNext := if s.next.None? then None else s.newNext,
         place := Writing(0))
    case WriteNext(n) =>
      if s.place.Writing? && s.place.k < |s.active| && n <= |Text(s.active[s.place.k])| then
        var data := Text(s.active[s.place.k]);
        s.(file := Some(Text(s.file) + data[..n]),
           writtenBytes := if n == |data| then s.writtenBytes + n else s.writtenBytes,
           place := Writing(s.place.k + 1))
      else s
    case CheckSize =>
      var t := s.(place := Checked);
      if s.writtenBytes >= FILE_MAXIMUM && s.file.Some? then
        t.(rotated := s.rotated + [s.file.value], file := None, writtenBytes := 0)
      else t
    case Recycle =>
      var takesFirst := s.newCurrent.None? && s.active != [];
      var rest := if takesFirst then s.active[..|s.active| - 1] else s.active;
      s.(newCurrent := if takesFirst then Last(s.active) else s.newCurrent,
         newNext := if s.newNext.None? then Last(rest) else s.newNext,
         active := [], place := Head)
    case Stop => s.(running := false)
    case Leave => s.(place := Gone)
  }

  /// Ownership

  predicate Full(bs: seq<Buffer>) {
    forall i | 0 <= i < |bs| :: bs[i].Some? && |bs[i].value| < BUFFER_SIZE
  }

  predicate Spare(b: Buffer) {
    b.None? || b.value == ""
  }

  predicate Inv(s: State) {
    && s.current.Some? && |s.current.value| < BUFFER_SIZE && Spare(s.next)
    && Full(s.buffers) && Full(s.active)
    && (s.next.None? <==> s.buffers != [])
    && (s.place in {Head, Entered, Gone} ==> s.newCurrent == Some("") && s.newNext == Some("") && s.active == [])
    && (s.place !in {Head, Entered, Gone} ==> s.newCurrent == None && Spare(s.newNext) && s.active != [])
    && (s.newNext.None? <==> |s.active| >= 2)
    && (s.place.Writing? ==> s.place.k <= |s.active|)
    && s.writtenBytes <= |Text(s.file)|
    && forall i | 0 <= i < |s.rotated| :: |s.rotated[i]| >= FILE_MAXIMUM
  }

  lemma PushKeeps(s: State)
    requires Inv(s)
    ensures Inv(PushCurrent(s)) && PushCurrent(s).current == Some("")
  {
  }

  lemma FillKeeps(s: State, msg: string)
    requires Inv(s)
    ensures Inv(s.(current := Append(s.current, msg)))
  {
  }

  lemma AppendKeeps(s: State, msg: string)
    requires Inv(s)
    ensures Inv(Next(s, AppendCache(msg))) && Inv(Next(s, AppendNonCache(msg)))
  {
    hide Inv, PushCurrent, Append;
    FillKeeps(s, msg);
    PushKeeps(s);
    PushKeeps(s.(current := Append(s.current, msg)));
    FillKeeps(PushCurrent(s), msg);
  }

  lemma SwapKeeps(s: State)
    requires Inv(s) && Enabled(s, SwapBuffers)
    ensures Inv(Next(s, SwapBuffers))
  {
  }

  lemma RecycleKeeps(s: State)
    requires Inv(s) && Enabled(s, Recycle)
    ensures Inv(Next(s, Recycle))
  {
  }

  lemma OtherKeeps(s: State, step: Step)
    requires Inv(s) && Enabled(s, step)
    requires step.Enter? || step.WriteNext? || step.CheckSize? || step.Stop? || step.Leave?
    ensures Inv(Next(s, step))
  {
  }

  lemma StepKeeps(s: State, step: Step)
    requires Inv(s) && Enabled(s, step)
    ensures Inv(Next(s, step))
  {
    hide Inv, Enabled, Next;
    match step {
      case AppendCache(msg) => AppendKeeps(s, msg);
      case AppendNonCache(msg) => AppendKeeps(s, msg);
      case SwapBuffers => SwapKeeps(s);
      case Recycle => RecycleKeeps(s);
      case _ => OtherKeeps(s, step);
    }
  }

  /// Conservation

  function Join(bs: seq<Buffer>): string {
    if bs == [] then "" else Text(bs[0]) + Join(bs[1..])
  }

  function JoinFiles(fs: seq<string>): string {
    if fs == [] then "" else fs[0] + JoinFiles(fs[1..])
  }

  function Unwritten(s: State): seq<Buffer> {
    if s.place.Writing? && s.place.k <= |s.active| then s.active[s.place.k..] else []
  }

  // Everything taken so far, oldest first.
  function Stream(s: State): string {
    JoinFiles(s.rotated) + Text(s.file) + Join(Unwritten(s)) + Join(s.buffers) + Text(s.current)
  }

  // What an append accepts.  Without the cache a message that does not fit
  // behind the current text is dropped, though an empty buffer would take it.
  function Taken(s: State, step: Step): string {
    match step
    case AppendCache(msg) => if |msg| < 1024 then msg else ""
    case AppendNonCache(msg) => if |Text(s.current)| + |msg| < 1024 then msg else ""
    case _ => ""
  }

  predicate Succeeds(s: State, step: Step) {
    step.WriteNext? ==> s.place.Writing? && s.place.k < |s.active| && step.reached == |Text(s.active[s.place.k])|
  }

  lemma {:induction false} JoinSnoc(bs: seq<Buffer>, b: Buffer)
    ensures Join(bs + [b]) == Join(bs) + Text(b)
    decreases |bs|
  {
    if bs == [] {
      assert [b][1..] == [];
      assert Join([b]) == Text(b) + Join([]);
    } else {
      assert (bs + [b])[1..] == bs[1..] + [b];
      JoinSnoc(bs[1..], b);
    }
  }

  lemma {:induction false} JoinFilesSnoc(fs: seq<string>, f: string)
    ensures JoinFiles(fs + [f]) == JoinFiles(fs) + f
    decreases |fs|
  {
    if fs == [] {
      assert [f][1..] == [];
      assert JoinFiles([f]) == f + JoinFiles([]);
    } else {
      assert (fs + [f])[1..] == fs[1..] + [f];
      JoinFilesSnoc(fs[1..], f);
    }
  }

  lemma AppendStream(s: State, msg: string)
    requires Inv(s)
    ensures Stream(s.(current := Append(s.current, msg))) ==
            Stream(s) + if |Text(s.current)| + |msg| < BUFFER_SIZE then msg else ""
  {
    hide Join, JoinFiles;
  }

  lemma PushStream(s: State)
    requires Inv(s)
    ensures Stream(PushCurrent(s)) == Stream(s) && Text(PushCurrent(s).current) == "" && Inv(PushCurrent(s))
  {
    JoinSnoc(s.buffers, s.current);
    hide Join, JoinFiles;
  }

  lemma SwapStream(s: State)
    requires Inv(s) && Enabled(s, SwapBuffers)
    ensures Stream(Next(s, SwapBuffers)) == Stream(s)
  {
    JoinSnoc(s.buffers, s.current);
    assert Join([]) == "" && s.active == [] && s.newCurrent == Some("");
    hide Join, JoinFiles, Inv;
    var t := Next(s, SwapBuffers);
    assert Unwritten(t) == s.buffers + [s.current];
    assert JoinFiles(s.rotated) + Text(s.file) + "" + Join(s.buffers) + Text(s.current) ==
           JoinFiles(s.rotated) + Text(s.file) + (Join(s.buffers) + Text(s.current)) + "" + "";
  }

  lemma BytesMove(r: string, f: string, d: string, n: nat, u: string, b: string, c: string)
    requires n <= |d|
    ensures r + (f + d[..n]) + u + b + c == r + f + (d + u) + b + c <==> n == |d|
  {
  }

  lemma WriteStream(s: State, n: nat)
    requires Inv(s) && Enabled(s, WriteNext(n))
    ensures Stream(Next(s, WriteNext(n))) == Stream(s) <==> Succeeds(s, WriteNext(n))
  {
    var k := s.place.k;
    assert s.active[k..][1..] == s.active[k + 1..];
    assert Join(s.active[k..]) == Text(s.active[k]) + Join(s.active[k + 1..]);
    hide Join, JoinFiles, Inv;
    BytesMove(JoinFiles(s.rotated), Text(s.file), Text(s.active[k]), n, Join(s.active[k + 1..]), Join(s.buffers), Text(s.current));
  }

  lemma FileRenamed(r: string, f: string, b: string, c: string)
    ensures (r + f) + "" + "" + b + c == r + f + "" + b + c
  {
  }

  lemma CheckStream(s: State)
    requires Inv(s) && Enabled(s, CheckSize)
    ensures Stream(Next(s, CheckSize)) == Stream(s)
  {
    JoinFilesSnoc(s.rotated, Text(s.file));
    assert Unwritten(s) == [] && Join([]) == "";
    hide Join, JoinFiles, Inv;
    FileRenamed(JoinFiles(s.rotated), Text(s.file), Join(s.buffers), Text(s.current));
  }

  lemma StepConservesExactly(s: State, step: Step)
    requires Inv(s) && Enabled(s, step)
    ensures Stream(Next(s, step)) == Stream(s) + Taken(s, step) <==> Succeeds(s, step)
  {
    assert Stream(s) + "" == Stream(s);
    match step {
      case AppendCache(msg) =>
        if Room(s.current, msg) {
          AppendStream(s, msg);
        } else {
          PushStream(s);
          AppendStream(PushCurrent(s), msg);
        }
      case AppendNonCache(msg) =>
        AppendStream(s, msg);
        PushStream(s.(current := Append(s.current, msg)));
      case SwapBuffers => SwapStream(s);
      case WriteNext(n) => WriteStream(s, n);
      case CheckSize => CheckStream(s);
      case Enter =>
      case Recycle =>
      case Stop =>
      case Leave =>
    }
  }

  /// Runs

  predicate Legal(s: State, run: seq<Step>)
    decreases |run|
  {
    run == [] || (Enabled(s, run[0]) && Legal(Next(s, run[0]), run[1..]))
  }

  predicate AllSucceed(s: State, run: seq<Step>)
    decreases |run|
  {
    run == [] || (Succeeds(s, run[0]) && AllSucceed(Next(s, run[0]), run[1..]))
  }

  function Final(s: State, run: seq<Step>): State
    decreases |run|
  {
    if run == [] then s else Final(Next(s, run[0]), run[1..])
  }

  // The accepted messages in lock order.
  function Accepted(s: State, run: seq<Step>): string
    decreases |run|
  {
    if run == [] then "" else Taken(s, run[0]) + Accepted(Next(s, run[0]), run[1..])
  }

  lemma {:induction false} RunKeeps(s: State, run: seq<Step>)
    requires Inv(s) && Legal(s, run)
    ensures Inv(Final(s, run))
    decreases |run|
  {
    hide Inv, Enabled, Next;
    if run == [] {
    } else {
      StepKeeps(s, run[0]);
      RunKeeps(Next(s, run[0]), run[1..]);
    }
  }

  lemma {:induction false} RunConserves(s: State, run: seq<Step>)
    requires Inv(s) && Legal(s, run) && AllSucceed(s, run)
    ensures Stream(Final(s, run)) == Stream(s) + Accepted(s, run)
    decreases |run|
  {
    hide Inv, Enabled, Next, Succeeds, Stream, Taken;
    if run == [] {
      assert Stream(s) + "" == Stream(s);
    } else {
      var t := Next(s, run[0]);
      StepKeeps(s, run[0]);
      StepConservesExactly(s, run[0]);
      RunConserves(t, run[1..]);
      assert Stream(s) + Taken(s, run[0]) + Accepted(t, run[1..]) == Stream(s) + (Taken(s, run[0]) + Accepted(t, run[1..]));
    }
  }

  lemma InitialInv(file: Option<string>)
    ensures Inv(Initial(file)) && Stream(Initial(file)) == Text(file)
  {
  }

  // Files, unwritten buffers and current buffer hold, in order, what the file
  // held at first and every accepted message.
  lemma NothingLost(file: Option<string>, run: seq<Step>)
    requires Legal(Initial(file), run) && AllSucceed(Initial(file), run)
    ensures Stream(Final(Initial(file), run)) == Text(file) + Accepted(Initial(file), run)
  {
    InitialInv(file);
    RunConserves(Initial(file), run);
  }

  /// The writer catches up.

  lemma {:induction false} RunsJoin(s: State, a: seq<Step>, b: seq<Step>)
    requires Legal(s, a) && Legal(Final(s, a), b) && AllSucceed(s, a) && AllSucceed(Final(s, a), b)
    ensures Legal(s, a + b) && AllSucceed(s, a + b) && Final(s, a + b) == Final(Final(s, a), b)
    decreases |a|
  {
    hide Enabled, Next, Succeeds;
    if a == [] {
      assert a + b == b;
    } else {
      RunsJoin(Next(s, a[0]), a[1..], b);
      assert (a + b)[1..] == a[1..] + b;
    }
  }

  lemma One(s: State, a: Step)
    requires Enabled(s, a) && Succeeds(s, a)
    ensures Legal(s, [a]) && AllSucceed(s, [a]) && Final(s, [a]) == Next(s, a)
  {
  }

  predicate ByWriter(step: Step) {
    !step.AppendCache? && !step.AppendNonCache? && !step.Stop?
  }

  lemma {:induction false} WritesAll(s: State) returns (run: seq<Step>)
    requires Inv(s) && s.place.Writing?
    ensures Legal(s, run) && AllSucceed(s, run) && forall step | step in run :: ByWriter(step)
    ensures var t := Final(s, run);
      t == s.(place := Writing(|s.active|), file := t.file, writtenBytes := t.writtenBytes)
    decreases |s.active| - s.place.k
  {
    if s.place.k == |s.active| {
      run := [];
    } else {
      var step := WriteNext(|Text(s.active[s.place.k])|);
      StepKeeps(s, step);
      var rest := WritesAll(Next(s, step));
      run := [step] + rest;
      assert run[1..] == rest;
    }
  }

  lemma StartsWriting(s: State) returns (run: seq<Step>)
    requires Inv(s) && s.place == Head && s.running
    ensures Legal(s, run) && AllSucceed(s, run) && forall step | step in run :: ByWriter(step)
    ensures var t := Final(s, run); t.place == Writing(0) && t.buffers == [] && t.current == Some("") && Inv(t)
  {
    var t := Next(s, Enter);
    One(s, Enter);
    StepKeeps(s, Enter);
    One(t, SwapBuffers);
    StepKeeps(t, SwapBuffers);
    run := [Enter] + [SwapBuffers];
    RunsJoin(s, [Enter], [SwapBuffers]);
  }

  lemma EndsWriting(s: State) returns (run: seq<Step>)
    requires Inv(s) && s.place == Writing(|s.active|)
    ensures Legal(s, run) && AllSucceed(s, run) && forall step | step in run :: ByWriter(step)
    ensures var t := Final(s, run); t.place == Head && t.buffers == s.buffers && t.current == s.current
  {
    var t := Next(s, CheckSize);
    One(s, CheckSize);
    StepKeeps(s, CheckSize);
    One(t, Recycle);
    run := [CheckSize] + [Recycle];
    RunsJoin(s, [CheckSize], [Recycle]);
  }

  // From the head of its loop the writer can put everything taken into files,
  // and be back there with all buffers empty.
  lemma CatchesUp(s: State) returns (run: seq<Step>)
    requires Inv(s) && s.place == Head && s.running
    ensures Legal(s, run) && AllSucceed(s, run) && forall step | step in run :: ByWriter(step)
    ensures var t := Final(s, run);
      t.place == Head && t.buffers == [] && t.current == Some("") && JoinFiles(t.rotated) + Text(t.file) == Stream(s)
  {
    hide Legal, AllSucceed, Final, Inv, Stream, Accepted;
    var a := StartsWriting(s);
    var s1 := Final(s, a);
    var b := WritesAll(s1);
    RunKeeps(s1, b);
    var c := EndsWriting(Final(s1, b));
    RunsJoin(s, a, b);
    RunsJoin(s, a + b, c);
    run := a + b + c;
    RunConserves(s, run);
    WriterTakesNothing(s, run);
    EmptyStream(Final(s, run));
    assert Stream(s) + "" == Stream(s);
  }

  lemma EmptyStream(t: State)
    requires !t.place.Writing? && t.buffers == [] && t.current == Some("")
    ensures Stream(t) == JoinFiles(t.rotated) + Text(t.file)
  {
    assert Join([]) == "";
  }

  lemma {:induction false} WriterTakesNothing(s: State, run: seq<Step>)
    requires forall step | step in run :: ByWriter(step)
    ensures Accepted(s, run) == ""
    decreases |run|
  {
    hide Next;
    if run == [] {
    } else {
      assert run[0] in run;
      WriterTakesNothing(Next(s, run[0]), run[1..]);
    }
  }

  lemma {:induction false} RunsUntilStopped(s: State, run: seq<Step>)
    ensures Final(s, run).running <==> s.running && Stop !in run
    decreases |run|
  {
    if run == [] {
    } else {
      RunsUntilStopped(Next(s, run[0]), run[1..]);
      assert run == [run[0]] + run[1..];
    }
  }

  // Until it is stopped, whatever was accepted can still reach the files.
  lemma WrittenInTheEnd(file: Option<string>, before: seq<Step>) returns (run: seq<Step>)
    requires Legal(Initial(file), before) && AllSucceed(Initial(file), before)
    requires Final(Initial(file), before).place == Head && Stop !in before
    ensures var s := Final(Initial(file), before);
      && Legal(s, run) && AllSucceed(s, run) && (forall step | step in run :: ByWriter(step))
      && JoinFiles(Final(s, run).rotated) + Text(Final(s, run).file) == Text(file) + Accepted(Initial(file), before)
  {
    InitialInv(file);
    RunKeeps(Initial(file), before);
    RunsUntilStopped(Initial(file), before);
    NothingLost(file, before);
    hide Legal, AllSucceed, Final, Inv, Stream, Accepted;
    run := CatchesUp(Final(Initial(file), before));
  }

  // The producers always find a buffer, and the writer always has two empty
  // ones to give at the head of its loop.
  lemma NeverNull(file: Option<string>, run: seq<Step>)
    requires Legal(Initial(file), run)
    ensures var s := Final(Initial(file), run);
      && s.current.Some? && (s.next.None? <==> s.buffers != [])
      && (forall b | b in s.buffers :: b.Some?)
      && (s.place in {Head, Entered} ==> s.newCurrent == Some("") && s.newNext == Some(""))
      && (Enabled(s, SwapBuffers) ==> Next(s, SwapBuffers).current == Some("") && Next(s, SwapBuffers).next == Some(""))
  {
    InitialInv(file);
    RunKeeps(Initial(file), run);
  }

  // As long as no write falls short, the bytes of the file are counted exactly.
  predicate Counted(s: State) {
    s.writtenBytes == |Text(s.file)|
  }

  lemma StepCounts(s: State, step: Step)
    requires Inv(s) && Counted(s) && Enabled(s, step) && Succeeds(s, step)
    ensures Counted(Next(s, step))
  {
  }

  lemma {:induction false} RunCounts(s: State, run: seq<Step>)
    requires Inv(s) && Counted(s) && Legal(s, run) && AllSucceed(s, run)
    ensures Counted(Final(s, run))
    decreases |run|
  {
    hide Inv, Counted, Enabled, Next, Succeeds;
    if run == [] {
    } else {
      StepKeeps(s, run[0]);
      StepCounts(s, run[0]);
      RunCounts(Next(s, run[0]), run[1..]);
    }
  }

  // Only files of at least the maximum size are renamed, and the size check
  // leaves less than that, counted and, when no write fell short, in the file.
  lemma RotatedFilesAreFull(file: Option<string>, run: seq<Step>)
    requires Legal(Initial(file), run)
    ensures var s := Final(Initial(file), run);
      && (forall f | f in s.rotated :: |f| >= 10 * 1024 * 1024)
      && (Enabled(s, CheckSize) ==>
          && Next(s, CheckSize).writtenBytes < 10 * 1024 * 1024
          && (AllSucceed(Initial(file), run) ==> |Text(Next(s, CheckSize).file)| < 10 * 1024 * 1024))
  {
    InitialInv(file);
    RunKeeps(Initial(file), run);
    if AllSucceed(Initial(file), run) { RunCounts(Initial(file), run); }
    hide Legal, Final, AllSucceed;
    CheckedIsSmall(Final(Initial(file), run));
  }

  lemma CheckedIsSmall(s: State)
    requires Inv(s)
    ensures (forall f | f in s.rotated :: |f| >= 10 * 1024 * 1024)
    ensures Enabled(s, CheckSize) ==> Next(s, CheckSize).writtenBytes < 10 * 1024 * 1024
    ensures Counted(s) && Enabled(s, CheckSize) ==> Counted(Next(s, CheckSize))
  {
  }

  // A message of 1024 bytes is dropped although it was the only one.
  lemma LongMessageDropped(msg: string)
    requires |msg| >= 1024
    ensures Stream(Next(Initial(None), AppendCache(msg))) == ""
  {
    InitialInv(None);
    StepConservesExactly(Initial(None), AppendCache(msg));
  }

  // Without the cache a message is dropped that an empty buffer would have held.
  lemma SecondMessageDropped(a: string, b: string)
    requires |a| < 1024 && 0 < |b| < 1024 <= |a| + |b|
    ensures Stream(Next(Next(Initial(None), AppendCache(a)), AppendNonCache(b))) == a
    ensures Stream(Next(Initial(None), AppendNonCache(b))) == b
  {
    var s := Initial(None);
    InitialInv(None);
    StepKeeps(s, AppendCache(a));
    var t := Next(s, AppendCache(a));
    assert "" + a == a && "" + b == b && a + "" == a;
    assert t.current == Some(a);
    assert Stream(s) == "";
    hide Stream, Inv, Next;
    StepConservesExactly(s, AppendCache(a));
    StepConservesExactly(t, AppendNonCache(b));
    StepConservesExactly(s, AppendNonCache(b));
  }

  /// The class

  class AsyncLogger {
    const disk: Disk
    var logfile: LogFile
    var current: Buffer
    var next: Buffer
    var buffers: seq<Buffer>
    // Locals of ThreadFunc.
    var newCurrent: Buffer
    var newNext: Buffer
    var activeBuffers: seq<Buffer>
    ghost var place: Place
    var running: bool

    ghost function View(): State
      reads this, disk, logfile
    {
      State(current, next, buffers, newCurrent, newNext, activeBuffers, place, running, disk.current, disk.rotated,
            logfile.writtenBytes)
    }

    ghost predicate Valid()
      reads this, disk, logfile
    {
      logfile.disk == disk && logfile.Valid() && Inv(View())
    }

    constructor (d: Disk)
      requires d.rotated == []
      ensures disk == d && fresh(logfile) && Valid() && View() == Initial(d.current)
    {
      disk := d;
      logfile := new LogFile(d);
      current, next, buffers := Some(""), Some(""), [];
      newCurrent, newNext, activeBuffers, place, running := Some(""), Some(""), [], Head, true;
    }

    method Replace()
      requires current.Some?
      modifies this`current, this`next, this`buffers
      ensures View() == PushCurrent(old(View())) && logfile == old(logfile)
    {
      buffers := buffers + [current];
      current := None;
      if next.Some? {
        current, next := next, None;
      } else {
        current := Some("");
      }
    }

    method AppendCached(msg: string)
      requires Valid()
      modifies this
      ensures View() == Next(old(View()), Step.AppendCache(msg)) && Valid()
    {
      StepKeeps(View(), Step.AppendCache(msg));
      if BUFFER_SIZE - |current.value| > |msg| {
        current := Some(Appended(current.value, msg, BUFFER_SIZE));
      } else {
        Replace();
        current := Some(Appended(current.value, msg, BUFFER_SIZE));
      }
    }

    method AppendUncached(msg: string)
      requires Valid()
      modifies this
      ensures View() == Next(old(View()), Step.AppendNonCache(msg)) && Valid()
    {
      StepKeeps(View(), Step.AppendNonCache(msg));
      current := Some(Appended(current.value, msg, BUFFER_SIZE));
      Replace();
    }

    method TestRunning()
      requires Valid() && place == Head
      modifies this`place
      ensures View() == Next(old(View()), if running then Enter else Leave) && Valid()
    {
      StepKeeps(View(), if running then Enter else Leave);
      place := if running then Entered else Gone;
    }

    // The locked part of the writer loop, after the wait, stopped or not.
    method Swap()
      requires Valid() && Enabled(View(), SwapBuffers)
      modifies this
      ensures View() == Next(old(View()), SwapBuffers) && Valid()
    {
      StepKeeps(View(), SwapBuffers);
      buffers := buffers + [current];
      activeBuffers, buffers := buffers, activeBuffers;
      current, newCurrent := newCurrent, None;
      if next.None? {
        next, newNext := newNext, None;
      }
      place := Writing(0);
    }

    method WriteActive(k: nat, takes: nat -> int)
      requires Valid() && place == Writing(k) && k < |activeBuffers|
      modifies this, disk, logfile
      ensures var data := Text(old(activeBuffers[k]));
        View() == Next(old(View()), WriteNext(LogFiles.Reached(data, takes, 0))) && Valid()
      ensures logfile == old(logfile)
    {
      var data := activeBuffers[k].value;
      StepKeeps(View(), WriteNext(LogFiles.Reached(data, takes, 0)));
      logfile.Write(data, takes);
      place := Writing(k + 1);
    }

    method Rotate()
      requires Valid() && Enabled(View(), CheckSize)
      modifies this, disk, logfile
      ensures View() == Next(old(View()), CheckSize) && Valid()
      ensures logfile == old(logfile) || fresh(logfile)
    {
      StepKeeps(View(), CheckSize);
      if logfile.writtenBytes >= FILE_MAXIMUM {
        logfile.ReCurrentLog();
        logfile := new LogFile(disk);
      }
      place := Checked;
    }

    // The writer takes back two buffers, emptied by bzero.
    method RecycleBuffers()
      requires Valid() && Enabled(View(), Recycle)
      modifies this
      ensures View() == Next(old(View()), Recycle) && Valid()
    {
      StepKeeps(View(), Recycle);
      if newCurrent.None? && activeBuffers != [] {
        newCurrent := activeBuffers[|activeBuffers| - 1];
        activeBuffers := activeBuffers[..|activeBuffers| - 1];
        newCurrent := if newCurrent.Some? then Some("") else None;
      }
      if newNext.None? && activeBuffers != [] {
        newNext := activeBuffers[|activeBuffers| - 1];
        activeBuffers := activeBuffers[..|activeBuffers| - 1];
        newNext := if newNext.Some? then Some("") else None;
      }
      activeBuffers := [];
      place := Head;
    }
  }
}
