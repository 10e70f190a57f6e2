/** src/HooLog/LogFile.h: a file appended to in parts, and its rotation. */
module LogFiles {
  import opened Wrappers

  // What stands under the log path, if anything, and the renamed files, oldest first.
  class Disk {
    var current: Option<string>
    var rotated: seq<string>

    constructor (content: Option<string>)
      ensures current == content && rotated == []
    {
      current, rotated := content, [];
    }
  }

  function Text(file: Option<string>): string {
    if file.Some? then file.value else ""
  }

  // The bytes of data that reach the file: fwrite is asked for the rest again
  // and again, takes part of it, and stops the loop when it takes nothing.
  function Reached(data: string, takes: nat -> int, pos: nat): (n: nat)
    requires pos <= |data|
    ensures pos <= n <= |data|
    ensures (forall k: nat :: takes(k) > 0) ==> n == |data|
    decreases |data| - pos
  {
    var written := if takes(pos) > |data| - pos then |data| - pos else takes(pos);
    if pos == |data| || written <= 0 then pos else Reached(data, takes, pos + written)
  }

  class LogFile {
    var opened_: bool
    var writtenBytes: nat
    const disk: Disk

    // An open file is there.
    ghost predicate Valid()
      reads this, disk
    {
      opened_ ==> disk.current.Some?
    }

    // LogFileSize looks at what is there.
    constructor (d: Disk)
      ensures Valid() && disk == d && writtenBytes == |Text(d.current)| && !opened_
    {
      disk, opened_ := d, false;
      writtenBytes := |Text(d.current)|;
    }

    // takes(pos) is what fwrite would take from position pos on.
    method Write(data: string, takes: nat -> int)
      requires Valid()
      modifies this, disk
      ensures Valid()
      ensures disk.rotated == old(disk.rotated)
      ensures disk.current == Some(Text(old(disk.current)) + data[..Reached(data, takes, 0)])
      ensures writtenBytes == if Reached(data, takes, 0) == |data| then old(writtenBytes) + |data| else old(writtenBytes)
      ensures opened_
    {
      if !opened_ {
        disk.current := Some(Text(disk.current));
        opened_ := true;
      }
      ghost var before := Text(old(disk.current));
      assert before + data[..0] == before;
      var pos := 0;
      while pos != |data|
        invariant pos <= |data| && opened_ && disk.rotated == old(disk.rotated) && writtenBytes == old(writtenBytes)
        invariant disk.current == Some(before + data[..pos])
        invariant Reached(data, takes, pos) == Reached(data, takes, 0)
        decreases |data| - pos
      {
        var written := if takes(pos) > |data| - pos then |data| - pos else takes(pos);
        if written <= 0 {
          return;
        }
        assert before + data[..pos] + data[pos..pos + written] == before + data[..pos + written];
        disk.current := Some(disk.current.value + data[pos..pos + written]);
        pos := pos + written;
      }
      if |data| != 0 {
        writtenBytes := writtenBytes + |data|;
      }
    }

    method ReCurrentLog()
      modifies this, disk
      ensures Valid()
      ensures disk.current == None && !opened_ && writtenBytes == old(writtenBytes)
      ensures disk.rotated == old(disk.rotated) + if old(disk.current).Some? then [old(disk.current).value] else []
    {
      opened_ := false;
      if disk.current.Some? {
        disk.rotated := disk.rotated + [disk.current.value];
        disk.current := None;
      }
    }
  }
}
