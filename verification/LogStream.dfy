/** FixedBuffer of src/HooLog/LogStream.h. */
module LogStream {
  // What append leaves in a buffer of the given size: one byte always stays free.
  function Appended(content: string, msg: string, size: nat): string {
    if size - |content| > |msg| then content + msg else content
  }

  class FixedBuffer {
    const data: array<char>
    var cur: nat

    ghost predicate Valid()
      reads this
    {
      cur < data.Length
    }

    function Contents(): (s: string)
      requires Valid()
      reads this, data
      ensures |s| < data.Length
    {
      data[..cur]
    }

    constructor (size: nat)
      requires size > 0
      ensures Valid() && fresh(data) && data.Length == size && Contents() == ""
    {
      data := new char[size];
      cur := 0;
    }

    function Avail(): (n: int)
      reads this
      ensures Valid() ==> n > 0
    {
      data.Length - cur
    }

    method Append(buf: array<char>, len: nat)
      requires Valid() && len <= buf.Length && buf != data
      modifies this`cur, data
      ensures Valid() && Contents() == Appended(old(Contents()), old(buf[..len]), data.Length)
    {
      if Avail() > len {
        ghost var before := Contents();
        var i := 0;
        while i < len
          invariant i <= len && cur == old(cur)
          invariant buf[..len] == old(buf[..len])
          invariant data[..cur + i] == before + buf[..i]
        {
          data[cur + i] := buf[i];
          i := i + 1;
        }
        assert buf[..len] == old(buf[..len]);
        cur := cur + len;
      }
    }

    method Bzero()
      requires Valid()
      modifies this`cur, data
      ensures Valid() && Contents() == "" && forall k | 0 <= k < data.Length :: data[k] == '\0'
    {
      var i := 0;
      while i < data.Length
        invariant i <= data.Length && cur == old(cur)
        invariant forall k | 0 <= k < i :: data[k] == '\0'
      {
        data[i] := '\0';
        i := i + 1;
      }
      cur := 0;
    }
  }
}
