/** The send path of src/NetWork/TcpConnection.cpp: a direct write when nothing
    is pending, the buffer and write interest for the rest. */
module Connections {
  import opened Buffers

  // What write(2) or send(2) did with the bytes it was offered.
  datatype Outcome = Took(n: nat) | Again | Broken

  // The kernel's bytes, the bytes kept, and the interest in EPOLLOUT.
  datatype Stream = Stream(taken: string, pending: string, writeOn: bool)

  function SendStep(s: Stream, msg: string, outcome: Outcome): Stream {
    if s.pending != "" then
      s.(pending := s.pending + msg, writeOn := s.writeOn || msg != "")
    else match outcome
      case Broken => s
      case Again => s.(pending := msg, writeOn := s.writeOn || msg != "")
      case Took(n) =>
        if n > |msg| then s
        else Stream(s.taken + msg[..n], msg[n..], s.writeOn || n < |msg|)
  }

  // A hard error retrieves -1 bytes: the byte in front of the content, stale,
  // becomes pending again.
  function WritableStep(s: Stream, outcome: Outcome, stale: char): Stream {
    if s.pending == "" then s
    else match outcome
      case Took(n) =>
        if n > |s.pending| then s else s.(taken := s.taken + s.pending[..n], pending := s.pending[n..])
      case Again => s
      case Broken => s.(pending := [stale] + s.pending)
  }

  class TcpConnection {
    const sendBuf: Buffer
    var writeOn: bool
    // The byte stream as the peer sees it, for the specification.
    ghost var taken: string

    ghost predicate Valid()
      reads this, sendBuf
    {
      sendBuf.Valid()
    }

    ghost function View(): Stream
      requires Valid()
      reads this, sendBuf, sendBuf.data
    {
      Stream(taken, sendBuf.View().content, writeOn)
    }

    constructor ()
      ensures Valid() && fresh(sendBuf) && fresh(sendBuf.data)
      ensures View() == Stream("", "", false)
    {
      sendBuf := new Buffer();
      writeOn, taken := false, "";
    }

    method EnableWrite()
      modifies this`writeOn
      ensures writeOn
    {
      writeOn := true;
    }

    method Send(msg: string, outcome: Outcome)
      requires Valid()
      requires outcome.Took? ==> outcome.n <= |msg|
      modifies this, sendBuf, sendBuf.data
      ensures Valid() && (sendBuf.data == old(sendBuf.data) || fresh(sendBuf.data))
      ensures View() == SendStep(old(View()), msg, outcome)
    {
      hide Shape.Append;
      var remaining := |msg|;
      var sendSize := 0;
      if sendBuf.ReadableBytes() == 0 {
        match outcome {
          case Took(n) =>
            sendSize := n;
            remaining := remaining - sendSize;
            taken := taken + msg[..n];
          case Again =>
          case Broken => return;
        }
      }
      if remaining > 0 {
        sendBuf.Append(msg[sendSize..]);
        EnableWrite();
      }
    }

    // After a hard error the read index leaves the array if it was at its front.
    method WriteNonBlocking(outcome: Outcome)
      requires Valid()
      requires outcome.Took? ==> outcome.n <= sendBuf.ReadableBytes()
      modifies this, sendBuf
      ensures sendBuf.data == old(sendBuf.data) && writeOn == old(writeOn)
      ensures Valid() <==> !(outcome.Broken? && old(View()).pending != "" && old(sendBuf.readIndex) == 0)
      ensures Valid() ==> View() == WritableStep(old(View()), outcome, old(sendBuf.Before()))
    {
      var remaining := sendBuf.ReadableBytes();
      if remaining == 0 {
        return;
      }
      var sendSize := match outcome case Took(n) => n case Again => 0 case Broken => -1;
      if outcome.Took? {
        taken := taken + sendBuf.View().content[..sendSize];
      }
      remaining := remaining - sendSize;
      sendBuf.Retrieve(sendSize);
    }
  }

  /// Whole runs.

  // Each writable event names the byte in front of the content at that time.
  datatype Event = Send(msg: string, outcome: Outcome) | Writable(outcome: Outcome, stale: char)

  function Apply(s: Stream, e: Event): Stream {
    match e
    case Send(msg, outcome) => SendStep(s, msg, outcome)
    case Writable(outcome, stale) => WritableStep(s, outcome, stale)
  }

  function Play(events: seq<Event>): Stream {
    if events == [] then Stream("", "", false)
    else Apply(Play(events[..|events| - 1]), events[|events| - 1])
  }

  // The kernel never takes more than it was offered.
  ghost predicate Possible(events: seq<Event>) {
    forall i | 0 <= i < |events| ::
      var pending := Play(events[..i]).pending;
      match events[i]
      case Send(msg, Took(n)) => pending == "" ==> n <= |msg|
      case Writable(Took(n), _) => n <= |pending|
      case _ => true
  }

  // All messages in order; one is refused only by a hard error with nothing pending.
  function Messages(events: seq<Event>): string {
    if events == [] then ""
    else
      var front := events[..|events| - 1];
      match events[|events| - 1]
      case Send(msg, outcome) =>
        if outcome.Broken? && Play(front).pending == "" then Messages(front) else Messages(front) + msg
      case Writable(_, _) => Messages(front)
  }

  // The writable events that ended in a hard error with bytes pending.
  function HardErrors(events: seq<Event>): nat {
    if events == [] then 0
    else
      var front, last := events[..|events| - 1], events[|events| - 1];
      HardErrors(front) + if last.Writable? && last.outcome.Broken? && Play(front).pending != "" then 1 else 0
  }

  lemma PossibleFront(events: seq<Event>)
    requires Possible(events) && events != []
    ensures Possible(events[..|events| - 1])
  {
    var front := events[..|events| - 1];
    assert forall i | 0 <= i <= |front| :: front[..i] == events[..i];
  }

  // Each hard error makes one byte too many.
  lemma {:induction false} BytesCounted(events: seq<Event>)
    requires Possible(events)
    ensures var s := Play(events);
      |s.taken| + |s.pending| == |Messages(events)| + HardErrors(events) && (s.pending != "" ==> s.writeOn)
    decreases |events|
  {
    if events == [] {
    } else {
      PossibleFront(events);
      BytesCounted(events[..|events| - 1]);
    }
  }

  // Write interest is registered exactly once something has been left pending.
  lemma {:induction false} WriteInterestExactly(events: seq<Event>)
    requires Possible(events)
    ensures Play(events).writeOn <==> exists k :: 0 <= k <= |events| && Play(events[..k]).pending != ""
    decreases |events|
  {
    assert events[..|events|] == events;
    if events == [] {
    } else {
      var n := |events| - 1;
      PossibleFront(events);
      WriteInterestExactly(events[..n]);
      assert forall k | 0 <= k <= n :: events[..n][..k] == events[..k];
      InterestStep(events);
      hide Play, Apply;
      if exists k :: 0 <= k <= n && Play(events[..k]).pending != "" {
        var k :| 0 <= k <= n && Play(events[..k]).pending != "";
        assert Play(events[..n][..k]).pending != "";
      }
    }
  }

  lemma InterestStep(events: seq<Event>)
    requires Possible(events) && events != []
    ensures Play(events).writeOn <==> Play(events[..|events| - 1]).writeOn || Play(events).pending != ""
  {
    var n := |events| - 1;
    PossibleFront(events);
    BytesCounted(events[..n]);
    InterestApplied(Play(events[..n]), events[n]);
    hide Apply;
  }

  lemma InterestApplied(s: Stream, e: Event)
    requires s.pending != "" ==> s.writeOn
    ensures Apply(s, e).writeOn <==> s.writeOn || Apply(s, e).pending != ""
  {
  }

  lemma SendConserves(s: Stream, msg: string, outcome: Outcome)
    requires s.pending == "" && outcome.Took? ==> outcome.n <= |msg|
    ensures var t := SendStep(s, msg, outcome);
      t.taken + t.pending == s.taken + s.pending + if outcome.Broken? && s.pending == "" then "" else msg
  {
    if s.pending == "" && outcome.Took? {
      assert s.taken + msg[..outcome.n] + msg[outcome.n..] == s.taken + "" + msg;
    }
  }

  lemma WritableConserves(s: Stream, outcome: Outcome, stale: char)
    requires outcome.Took? ==> outcome.n <= |s.pending|
    requires s.pending != "" ==> !outcome.Broken?
    ensures var t := WritableStep(s, outcome, stale); t.taken + t.pending == s.taken + s.pending
  {
    if outcome.Took? {
      assert s.taken + s.pending[..outcome.n] + s.pending[outcome.n..] == s.taken + s.pending;
    }
  }

  lemma {:induction false} CleanRunConserves(events: seq<Event>)
    requires Possible(events) && HardErrors(events) == 0
    ensures Play(events).taken + Play(events).pending == Messages(events)
    decreases |events|
  {
    if events == [] {
    } else {
      var front, last := events[..|events| - 1], events[|events| - 1];
      PossibleFront(events);
      CleanRunConserves(front);
      var s := Play(front);
      match last {
        case Send(msg, outcome) =>
          SendConserves(s, msg, outcome);
          assert Messages(front) + "" == Messages(front);
        case Writable(outcome, stale) => WritableConserves(s, outcome, stale);
      }
    }
  }

  // The kernel's bytes and the pending ones are all messages in order exactly
  // when no writable event with pending bytes ended in a hard error.
  lemma StreamConserved(events: seq<Event>)
    requires Possible(events)
    ensures var s := Play(events);
      && (s.taken + s.pending == Messages(events) <==> HardErrors(events) == 0)
      && (s.pending != "" ==> s.writeOn)
  {
    BytesCounted(events);
    if HardErrors(events) == 0 { CleanRunConserves(events); }
  }

  lemma OneMore(events: seq<Event>, e: Event)
    requires Possible(events)
    requires match e
      case Send(msg, Took(n)) => Play(events).pending == "" ==> n <= |msg|
      case Writable(Took(n), _) => n <= |Play(events).pending|
      case _ => true
    ensures Possible(events + [e]) && Play(events + [e]) == Apply(Play(events), e)
    ensures e.Writable? ==> Messages(events + [e]) == Messages(events)
  {
    var all := events + [e];
    assert all[..|events|] == events;
    assert forall i | 0 <= i < |events| :: all[..i] == events[..i];
  }

  // After one hard error the next write sends a byte nobody asked for.
  lemma StrayByteSent(events: seq<Event>, stale: char)
    requires Possible(events) && Play(events).pending != ""
    ensures var s, more := Play(events), events + [Writable(Broken, stale)] + [Writable(Took(1), stale)];
      && Possible(more) && Messages(more) == Messages(events)
      && Play(more).taken == s.taken + [stale] && Play(more).pending == s.pending
  {
    var s := Play(events);
    OneMore(events, Writable(Broken, stale));
    OneMore(events + [Writable(Broken, stale)], Writable(Took(1), stale));
    assert ([stale] + s.pending)[..1] == [stale] && ([stale] + s.pending)[1..] == s.pending;
  }

  // Level-triggered writable events, each taking something, one after another.
  ghost predicate Draining(events: seq<Event>, k: nat) {
    k <= |events| && forall i | k <= i < |events| :: events[i].Writable? && events[i].outcome.Took? && events[i].outcome.n > 0
  }

  // While bytes are pending a level-triggered poll keeps reporting the
  // descriptor; as many events as there are bytes empty the buffer.
  lemma {:induction false} Drains(events: seq<Event>, k: nat)
    requires Possible(events) && Draining(events, k)
    ensures Messages(events) == Messages(events[..k]) && HardErrors(events) == HardErrors(events[..k])
    ensures |Play(events).pending| + |events| - k <= |Play(events[..k]).pending|
    decreases |events|
  {
    if |events| == k {
      assert events[..k] == events;
    } else {
      var front := events[..|events| - 1];
      PossibleFront(events);
      Drains(front, k);
      assert front[..k] == events[..k];
    }
  }

  // So the bytes run out, and then every message has reached the kernel, in order.
  lemma EverythingSent(events: seq<Event>, k: nat)
    requires Possible(events) && Draining(events, k) && HardErrors(events[..k]) == 0
    ensures |events| - k <= |Play(events[..k]).pending|
    ensures if Play(events).pending == "" then Play(events).taken == Messages(events[..k]) else Play(events).writeOn
  {
    Drains(events, k);
    StreamConserved(events);
    assert Play(events).taken + "" == Play(events).taken;
  }
}
