/** src/Util/Buffer.cpp: an array with a read and a write index that grows,
    moves its content back to the front, and must act as a byte queue. */
module Buffers {
  const PREPEND_INDEX := 8
  const INITIAL_SIZE := 1024

  // The buffer as its clients see it, and the room around the content.
  datatype Shape = Shape(content: string, read: nat, size: nat) {
    function Write(): nat { read + |content| }

    predicate Ok() { Write() <= size && PREPEND_INDEX <= size }

    function Room(len: nat): Shape
    {
      if size >= Write() + len then this
      else if size - Write() + read >= PREPEND_INDEX + len then this.(read := PREPEND_INDEX)
      else this.(size := Write() + len)
    }

    function Append(msg: string): Shape {
      var s := Room(|msg|);
      s.(content := content + msg)
    }

    function Prepend(msg: string): Shape {
      if |msg| > read then this else Shape(msg + content, read - |msg|, size)
    }

    function Retrieve(len: nat): Shape
      requires len <= |content|
    {
      if len < |content| then Shape(content[len..], read + len, size) else RetrieveAll()
    }

    function RetrieveAll(): Shape {
      Shape("", PREPEND_INDEX, size)
    }

    // Unlike Retrieve this never goes back to the front.
    function RetrieveUntil(len: nat): Shape
      requires len <= |content|
    {
      Shape(content[len..], read + len, size)
    }
  }

  class Buffer {
    var data: array<char>
    var readIndex: int
    var writeIndex: int

    ghost predicate Valid()
      reads this
    {
      0 <= readIndex <= writeIndex <= data.Length && PREPEND_INDEX <= data.Length
    }

    ghost function View(): (s: Shape)
      requires Valid()
      reads this, data
      ensures s.Ok()
    {
      Shape(data[readIndex..writeIndex], readIndex, data.Length)
    }

    constructor ()
      ensures Valid() && fresh(data)
      ensures View() == Shape("", 8, 1024)
    {
      data := new char[INITIAL_SIZE](_ => '\0');
      readIndex, writeIndex := PREPEND_INDEX, PREPEND_INDEX;
    }

    function ReadableBytes(): int
      reads this
    {
      writeIndex - readIndex
    }

    function WriteableBytes(): int
      reads this
    {
      data.Length - writeIndex
    }

    function PrependableBytes(): int
      reads this
    {
      readIndex
    }

    // The byte in front of the readable ones, if there is one.
    ghost function Before(): char
      requires Valid()
      reads this, data
    {
      if readIndex > 0 then data[readIndex - 1] else '\0'
    }

    // std::copy between two ranges of the array, first to last: safe to the left.
    method MoveLeft(from: int, to: int, dest: int)
      requires 0 <= dest < from <= to <= data.Length
      modifies data
      ensures data[dest..dest + to - from] == old(data[from..to])
    {
      ghost var was := data[..];
      var i := 0;
      while i < to - from
        invariant 0 <= i <= to - from
        invariant data[dest..dest + i] == was[from..from + i]
        invariant data[from + i..] == was[from + i..]
      {
        assert data[from + i] == data[from + i..][0] == was[from + i..][0];
        data[dest + i] := data[from + i];
        assert data[dest..dest + i + 1] == data[dest..dest + i] + [was[from + i]];
        assert data[from + i + 1..] == data[from + i..][1..];
        i := i + 1;
      }
    }

    // std::copy from outside into the array.
    method CopyIn(msg: string, at: int)
      requires 0 <= at && at + |msg| <= data.Length
      modifies data
      ensures data[..] == old(data[..at]) + msg + old(data[at + |msg|..])
    {
      ghost var was := data[..];
      for i := 0 to |msg|
        invariant data[..] == was[..at] + msg[..i] + was[at + i..]
      {
        data[at + i] := msg[i];
      }
    }

    method Resize(n: nat)
      requires Valid() && data.Length <= n
      modifies this`data
      ensures fresh(data) && data.Length == n && data[..old(data.Length)] == old(data[..])
    {
      var bigger := new char[n](_ => '\0');
      var i := 0;
      while i < data.Length
        invariant 0 <= i <= data.Length <= bigger.Length
        invariant bigger[..i] == data[..i]
        invariant data[..] == old(data[..])
      {
        bigger[i] := data[i];
        i := i + 1;
      }
      data := bigger;
    }

    method EnsureWriteableBytes(len: nat)
      requires Valid()
      modifies this, data
      ensures Valid() && (data == old(data) || fresh(data))
      ensures View() == old(View()).Room(len)
      ensures WriteableBytes() >= len
    {
      if WriteableBytes() >= len {
        return;
      }
      if WriteableBytes() + PrependableBytes() >= PREPEND_INDEX + len {
        assert readIndex > PREPEND_INDEX;
        MoveLeft(readIndex, writeIndex, PREPEND_INDEX);
        writeIndex := PREPEND_INDEX + ReadableBytes();
        readIndex := PREPEND_INDEX;
      } else {
        ghost var was := data[..];
        Resize(writeIndex + len);
        assert data[readIndex..writeIndex] == data[..|was|][readIndex..writeIndex];
      }
    }

    method Append(msg: string)
      requires Valid()
      modifies this, data
      ensures Valid() && (data == old(data) || fresh(data))
      ensures View() == old(View()).Append(msg) && View().content == old(View()).content + msg
    {
      EnsureWriteableBytes(|msg|);
      CopyIn(msg, writeIndex);
      writeIndex := writeIndex + |msg|;
    }

    method AppendPrepend(msg: string)
      requires Valid()
      modifies this, data
      ensures Valid() && data == old(data)
      ensures View() == old(View()).Prepend(msg)
    {
      if |msg| > PrependableBytes() {
        return;
      }
      CopyIn(msg, readIndex - |msg|);
      readIndex := readIndex - |msg|;
    }

    // The assert of the source lets a negative length pass: it moves the read
    // index to the left, out of the array if it stands at the front.
    method Retrieve(len: int)
      requires Valid() && len <= ReadableBytes()
      modifies this
      ensures data == old(data)
      ensures len >= 0 ==> Valid() && View() == old(View()).Retrieve(len)
      ensures len < 0 ==> readIndex == old(readIndex) + len && writeIndex == old(writeIndex)
    {
      if len + readIndex < writeIndex {
        readIndex := readIndex + len;
      } else {
        RetrieveAll();
      }
    }

    method RetrieveAll()
      requires Valid()
      modifies this
      ensures Valid() && data == old(data) && View() == old(View()).RetrieveAll()
    {
      writeIndex := PREPEND_INDEX;
      readIndex := writeIndex;
    }

    // end is a position, as the pointer argument is.  The assert of the source
    // lets one in front of the read index pass: the read index moves there.
    method RetrieveUntil(end: int)
      requires Valid() && end <= writeIndex
      modifies this`readIndex
      ensures readIndex == end && (Valid() <==> end >= 0)
      ensures end >= old(readIndex) ==> View() == old(View()).RetrieveUntil(end - old(readIndex))
    {
      readIndex := readIndex + (end - readIndex);
    }

    method RetrieveAsString(len: nat) returns (s: string)
      requires Valid() && readIndex + len <= writeIndex
      modifies this
      ensures Valid() && data == old(data) && View() == old(View()).Retrieve(len)
      ensures s == old(View()).content[..len]
    {
      s := data[readIndex..readIndex + len];
      Retrieve(len);
    }

    method RetrieveAllAsString() returns (s: string)
      requires Valid() && ReadableBytes() > 0
      modifies this
      ensures Valid() && data == old(data) && View() == old(View()).RetrieveAll()
      ensures s == old(View()).content
    {
      s := data[readIndex..writeIndex];
      RetrieveAll();
    }
  }

  /// Whole runs.

  datatype Op = Append(msg: string) | Prepend(msg: string) | Retrieve(n: nat) | RetrieveAll | RetrieveUntil(n: nat)

  predicate Legal(s: Shape, op: Op) {
    (op.Retrieve? || op.RetrieveUntil?) ==> op.n <= |s.content|
  }

  function Apply(s: Shape, op: Op): Shape
    requires Legal(s, op)
  {
    match op
    case Append(msg) => s.Append(msg)
    case Prepend(msg) => s.Prepend(msg)
    case Retrieve(n) => s.Retrieve(n)
    case RetrieveAll => s.RetrieveAll()
    case RetrieveUntil(n) => s.RetrieveUntil(n)
  }

  // The states a buffer goes through.
  ghost predicate Run(states: seq<Shape>, ops: seq<Op>) {
    && |states| == |ops| + 1
    && states[0] == Shape("", 8, 1024)
    && forall i | 0 <= i < |ops| :: Legal(states[i], ops[i]) && states[i + 1] == Apply(states[i], ops[i])
  }

  // A plain queue; a prepend that finds too little room in front changes nothing.
  function QueueStep(q: string, op: Op, fits: bool): string {
    match op
    case Append(msg) => q + msg
    case Prepend(msg) => if fits then msg + q else q
    case Retrieve(n) => if n <= |q| then q[n..] else q
    case RetrieveAll => ""
    case RetrieveUntil(n) => if n <= |q| then q[n..] else q
  }

  // The states of a plain queue, given which prepends found room.
  ghost predicate QueueRun(queue: seq<string>, ops: seq<Op>, fits: seq<bool>) {
    && |queue| == |ops| + 1 == |fits| + 1
    && queue[0] == ""
    && forall i | 0 <= i < |ops| :: queue[i + 1] == QueueStep(queue[i], ops[i], fits[i])
  }

  lemma {:induction false} RefinesQueue(states: seq<Shape>, ops: seq<Op>, queue: seq<string>, fits: seq<bool>, k: nat)
    requires Run(states, ops) && QueueRun(queue, ops, fits) && k <= |ops|
    requires forall i | 0 <= i < |ops| :: ops[i].Prepend? ==> (fits[i] <==> |ops[i].msg| <= states[i].read)
    ensures states[k].content == queue[k] && states[k].Ok()
    decreases k
  {
    if k == 0 {
    } else {
      RefinesQueue(states, ops, queue, fits, k - 1);
      assert states[k] == Apply(states[k - 1], ops[k - 1]);
    }
  }

  // Content moves only when there is no room behind it, and the array grows
  // only when there is not enough in all; an emptied buffer starts over.
  lemma RoomIsThrifty(s: Shape, len: nat)
    ensures s.Write() + len <= s.size ==> s.Room(len) == s
    ensures s.Room(len).size == s.size <==> s.Write() + len <= s.size || 8 + |s.content| + len <= s.size
    ensures s.Room(len).content == s.content && s.Room(len).Write() + len <= s.Room(len).size
    ensures len <= |s.content| && s.Retrieve(len).content == "" ==> s.Retrieve(len) == Shape("", 8, s.size)
  {
  }

  function Max(a: nat, b: nat): nat {
    if a < b then b else a
  }

  // However long the run, the array stays below a bound set by the longest
  // append and the most unread content.
  lemma {:induction false} CapacityBound(states: seq<Shape>, ops: seq<Op>, longest: nat, unread: nat, k: nat)
    requires Run(states, ops) && k <= |ops|
    requires forall i | 0 <= i < |ops| :: ops[i].Append? ==> |ops[i].msg| <= longest
    requires forall i | 0 <= i < |states| :: |states[i].content| <= unread
    ensures states[k].Ok() && states[k].size <= Max(1024, 7 + longest + unread)
    decreases k
  {
    if k == 0 {
    } else {
      CapacityBound(states, ops, longest, unread, k - 1);
      assert states[k] == Apply(states[k - 1], ops[k - 1]);
      assert |states[k].content| <= unread;
    }
  }

  // The bound is reached: fill the array, read all but one byte, append as much again.
  lemma CapacityBoundReached(written: string, more: string)
    requires |written| == |more| == 1016
    ensures var s0 := Shape("", 8, 1024);
      var s1 := s0.Append(written);
      var s2 := s1.Retrieve(|written| - 1);
      var s3 := s2.Append(more);
      && Run([s0, s1, s2, s3], [Append(written), Retrieve(|written| - 1), Append(more)])
      && |s3.content| == |more| + 1
      && s3.size == 7 + |more| + |s3.content|
  {
  }
}
